/** What every interleaving of uploads and deletions keeps. */
module PortfolioSafety {
  import opened Portfolio
  import Sets

  /** The call is responsible for a file: it created it and has not committed a row for it, or it
      committed the deletion of its row. */
  predicate OwnsFile(call: Call) {
    || call.AddOpened? || call.AddWritten? || call.AddInserted? || call.AddAudited? || call.AddFailing?
    || call.DelCommitted?
  }

  predicate HoldsProfile(call: Call) {
    call.AddLocked? || Counted(call)
  }

  /** Past the count, and still on the way to the commit. */
  predicate Counted(call: Call) {
    call.AddCounted? || call.AddOpened? || call.AddWritten? || call.AddInserted? || call.AddAudited?
  }

  predicate HoldsItem(call: Call) {
    call.DelDeleted? || call.DelAudited?
  }

  predicate HasItem(call: Call) {
    call.AddInserted? || call.AddAudited?
  }

  // ----- the invariant, one call at a time -----

  ghost predicate FileOk(w: World, c: nat)
    requires c in w.calls
  {
    var p := w.calls[c];
    OwnsFile(p) ==>
      && p.key in w.usedKeys
      && (forall i :: i in w.rows ==> w.rows[i].key != p.key)
      && (p.AddWritten? || p.AddInserted? || p.AddAudited? ==> p.key in w.files && w.files[p.key] == p.size)
  }

  ghost predicate LocksOk(w: World, c: nat)
    requires c in w.calls
  {
    var p := w.calls[c];
    c !in w.aborted ==>
      && (HoldsProfile(p) ==> p.user in w.profileLocks && w.profileLocks[p.user] == c)
      && (Counted(p) ==> |ItemsOf(w, p.user)| < MAX_ITEMS)
      && (HoldsItem(p) ==>
            && p.item in w.itemLocks && w.itemLocks[p.item] == c
            && p.item in w.rows && w.rows[p.item].key == p.key)
  }

  ghost predicate ItemOk(w: World, c: nat)
    requires c in w.calls
  {
    HasItem(w.calls[c]) ==> w.calls[c].item in w.usedItems && w.calls[c].item !in w.rows
  }

  ghost predicate Apart(w: World) {
    forall c, d :: c in w.calls && d in w.calls && c != d ==>
      && (OwnsFile(w.calls[c]) && OwnsFile(w.calls[d]) ==> w.calls[c].key != w.calls[d].key)
      && (HasItem(w.calls[c]) && HasItem(w.calls[d]) ==> w.calls[c].item != w.calls[d].item)
  }

  ghost predicate RowsOk(w: World) {
    && (forall i :: i in w.rows ==> RowOk(w, i))
    && (forall i, j :: i in w.rows && j in w.rows && i != j ==> w.rows[i].key != w.rows[j].key)
  }

  ghost predicate RowOk(w: World, i: nat)
    requires i in w.rows
  {
    && i in w.usedItems && w.rows[i].key in w.usedKeys
    && w.rows[i].key in w.files && w.files[w.rows[i].key] == w.rows[i].size
  }

  ghost predicate WithinLimit(w: World) {
    forall user :: |ItemsOf(w, user)| <= MAX_ITEMS
  }

  ghost predicate Inv(w: World) {
    && RowsOk(w) && WithinLimit(w) && Apart(w)
    && w.files.Keys <= w.usedKeys
    && forall c :: c in w.calls ==> FileOk(w, c) && LocksOk(w, c) && ItemOk(w, c)
  }

  function KeysOf(rows: map<nat, Row>): set<nat> {
    set i | i in rows :: rows[i].key
  }

  function RowKeys(w: World): set<nat> {
    KeysOf(w.rows)
  }

  function CallKeys(w: World): set<nat> {
    set c | c in w.calls && OwnsFile(w.calls[c]) :: w.calls[c].key
  }

  /** Nothing on disk but the stored files and those of calls in flight. */
  ghost predicate NoStrayFiles(w: World) {
    w.files.Keys == RowKeys(w) + CallKeys(w)
  }

  /** A crash, or a file that could not be removed. */
  predicate Leaks(a: Action) {
    a.Crash? || (a.RemoveFile? && !a.removed) || (a.RemoveStored? && !a.removed)
  }

  // ----- one step -----

  predicate Mine(w: World, c: nat, key: nat) {
    c in w.calls && OwnsFile(w.calls[c]) && w.calls[c].key == key
  }

  /** Between `w` and `v` only the call `c` moved: it may take or drop locks, change its own file or
      make a new one, and take a new item id. */
  ghost predicate OnlyMoves(w: World, v: World, c: nat) {
    && w.usedKeys <= v.usedKeys && w.usedItems <= v.usedItems && v.files.Keys <= v.usedKeys
    && (forall d :: d != c && d in w.calls ==> d in v.calls && v.calls[d] == w.calls[d])
    && (forall d :: d != c && d in v.calls ==> d in w.calls)
    && (forall d :: d != c && d in w.aborted ==> d in v.aborted)
    && (forall u :: u in w.profileLocks && w.profileLocks[u] != c ==>
          u in v.profileLocks && v.profileLocks[u] == w.profileLocks[u])
    && (forall i :: i in w.itemLocks && w.itemLocks[i] != c ==> i in v.itemLocks && v.itemLocks[i] == w.itemLocks[i])
    && (forall k :: k in w.files && !Mine(w, c, k) ==> k in v.files && v.files[k] == w.files[k])
    && (c in v.calls && OwnsFile(v.calls[c]) ==> Mine(w, c, v.calls[c].key) || v.calls[c].key !in w.usedKeys)
    && (c in v.calls && HasItem(v.calls[c]) ==>
          || (c in w.calls && HasItem(w.calls[c]) && w.calls[c].item == v.calls[c].item)
          || v.calls[c].item !in w.usedItems)
  }

  ghost predicate CallOk(w: World, c: nat) {
    c in w.calls ==> FileOk(w, c) && LocksOk(w, c) && ItemOk(w, c)
  }

  lemma StillApart(w: World, v: World, c: nat)
    requires Inv(w) && OnlyMoves(w, v, c)
    ensures Apart(v)
  {
    forall d | d in v.calls && c in v.calls && d != c
      ensures OwnsFile(v.calls[c]) && OwnsFile(v.calls[d]) ==> v.calls[c].key != v.calls[d].key
      ensures HasItem(v.calls[c]) && HasItem(v.calls[d]) ==> v.calls[c].item != v.calls[d].item
    {
      assert FileOk(w, d) && ItemOk(w, d);
    }
  }

  /** A move that leaves the rows alone keeps the invariant if it leaves the moved call in order. */
  lemma MoveKeepsInv(w: World, v: World, c: nat)
    requires Inv(w) && OnlyMoves(w, v, c) && v.rows == w.rows && CallOk(v, c)
    ensures Inv(v)
  {
    StillApart(w, v, c);
    forall user ensures ItemsOf(v, user) == ItemsOf(w, user) {}
    forall i | i in v.rows ensures RowOk(v, i) {
      assert RowOk(w, i);
      assert c in w.calls ==> FileOk(w, c);
    }
    forall d | d in v.calls ensures FileOk(v, d) && LocksOk(v, d) && ItemOk(v, d) {
      if d != c {
        assert FileOk(w, d) && LocksOk(w, d) && ItemOk(w, d);
        assert ItemsOf(v, if w.calls[d].DelCommitted? then 0 else w.calls[d].user)
            == ItemsOf(w, if w.calls[d].DelCommitted? then 0 else w.calls[d].user);
      }
    }
  }

  lemma CommitAddOthers(w: World, a: Action, d: nat)
    requires Inv(w) && Enabled(w, a) && a.CommitAdd?
    requires d in w.calls && d != a.call
    ensures d in Do(w, a).calls && FileOk(Do(w, a), d) && LocksOk(Do(w, a), d) && ItemOk(Do(w, a), d)
  {
    var v, c := Do(w, a), a.call;
    assert FileOk(w, c) && LocksOk(w, c) && ItemOk(w, c);
    assert FileOk(w, d) && LocksOk(w, d) && ItemOk(w, d);
    assert v.calls[d] == w.calls[d];
    if Counted(w.calls[d]) && d !in w.aborted {
      assert w.calls[d].user != w.calls[c].user;
      assert ItemsOf(v, w.calls[d].user) == ItemsOf(w, w.calls[d].user);
    }
  }

  lemma ItemAdded(rows: map<nat, Row>, item: nat, row: Row, user: int)
    requires item !in rows
    ensures ItemsIn(rows[item := row], user) == if user == row.owner then ItemsIn(rows, user) + {item}
              else ItemsIn(rows, user)
  {
  }

  lemma CommitAddWithinLimit(w: World, a: Action)
    requires WithinLimit(w) && Enabled(w, a) && a.CommitAdd? && ItemOk(w, a.call) && LocksOk(w, a.call)
    ensures WithinLimit(Do(w, a))
  {
    var p := w.calls[a.call];
    forall user ensures |ItemsOf(Do(w, a), user)| <= MAX_ITEMS {
      ItemAdded(w.rows, p.item, Row(p.user, p.key, p.size), user);
      assert |ItemsOf(w, user)| <= MAX_ITEMS;
    }
  }

  lemma CommitAddRows(w: World, a: Action)
    requires RowsOk(w) && Enabled(w, a) && a.CommitAdd? && FileOk(w, a.call) && ItemOk(w, a.call)
    ensures RowsOk(Do(w, a))
  {
    var v := Do(w, a);
    forall i | i in v.rows ensures RowOk(v, i) {
      assert i != w.calls[a.call].item ==> RowOk(w, i);
    }
  }

  lemma CommitAddMoves(w: World, a: Action)
    requires Enabled(w, a) && a.CommitAdd? && w.files.Keys <= w.usedKeys
    ensures OnlyMoves(w, Do(w, a), a.call)
  {
    var v := Do(w, a);
    assert OnlyMoves(w, v, a.call);
  }

  lemma CommitAddKeepsInv(w: World, a: Action)
    requires Inv(w) && Enabled(w, a) && a.CommitAdd?
    ensures Inv(Do(w, a))
  {
    var v, c := Do(w, a), a.call;
    assert CallOk(w, c);
    CommitAddMoves(w, a);
    StillApart(w, v, c);
    CommitAddRows(w, a);
    CommitAddWithinLimit(w, a);
    forall d | d in v.calls ensures FileOk(v, d) && LocksOk(v, d) && ItemOk(v, d) {
      CommitAddOthers(w, a, d);
    }
  }

  lemma CommitDeleteKeepsInv(w: World, a: Action)
    requires Inv(w) && Enabled(w, a) && a.CommitDelete?
    ensures Inv(Do(w, a))
  {
    var v, c := Do(w, a), a.call;
    var p := w.calls[c];
    assert FileOk(w, c) && LocksOk(w, c) && ItemOk(w, c) && RowOk(w, p.item);
    forall d | d in w.calls ensures FileOk(w, d) && LocksOk(w, d) && ItemOk(w, d) {}
    forall user ensures |ItemsOf(v, user)| <= |ItemsOf(w, user)| {
      Sets.SubsetSize(ItemsOf(v, user), ItemsOf(w, user));
    }
    forall i | i in v.rows ensures RowOk(v, i) {
      assert RowOk(w, i);
    }
    forall d | d in v.calls && d != c ensures FileOk(v, d) && LocksOk(v, d) && ItemOk(v, d) {
      assert v.calls[d] == w.calls[d];
      if Counted(v.calls[d]) {
        assert |ItemsOf(v, v.calls[d].user)| <= |ItemsOf(w, v.calls[d].user)|;
      }
    }
    assert FileOk(v, c) && LocksOk(v, c) && ItemOk(v, c);
  }

  /** The steps that end a call, or only take its locks away. */
  predicate Stops(w: World, a: Action)
    requires Enabled(w, a)
  {
    || a.EndAdd? || a.DeleteFindsNothing? || a.RemoveStored? || a.ServerAborts? || a.Crash?
    || (a.StatementFails? && !w.calls[a.call].AddStarted? && !w.calls[a.call].AddLocked?
        && !w.calls[a.call].AddWritten? && !HasItem(w.calls[a.call]))
  }

  /** Ids in use are recorded, so a fresh one is new to every row. */
  ghost predicate Recorded(w: World) {
    && w.files.Keys <= w.usedKeys
    && forall i :: i in w.rows ==> i in w.usedItems && w.rows[i].key in w.usedKeys
  }

  predicate FileStep(a: Action) {
    a.OpenFile? || a.OpenFails? || a.WriteAll? || a.WriteFails? || a.RemoveFile?
  }

  predicate CommitStep(a: Action) {
    a.CommitAdd? || a.CommitDelete?
  }

  lemma StopMoves(w: World, a: Action)
    requires Recorded(w) && Enabled(w, a) && CallOk(w, a.call) && Stops(w, a)
    ensures OnlyMoves(w, Do(w, a), a.call)
  {
    var v := Do(w, a);
    assert OnlyMoves(w, v, a.call);
  }

  lemma FileStepMoves(w: World, a: Action)
    requires Recorded(w) && Enabled(w, a) && CallOk(w, a.call) && FileStep(a)
    ensures OnlyMoves(w, Do(w, a), a.call)
  {
    var v := Do(w, a);
    assert OnlyMoves(w, v, a.call);
  }

  lemma FailureMoves(w: World, a: Action)
    requires Recorded(w) && Enabled(w, a) && CallOk(w, a.call) && a.StatementFails? && !Stops(w, a)
    ensures OnlyMoves(w, Do(w, a), a.call)
  {
    var v := Do(w, a);
    assert OnlyMoves(w, v, a.call);
  }

  /** The statements of an upload before its file is there, and after. */
  predicate EarlyStatement(a: Action) {
    a.LockProfile? || a.CountItems?
  }

  predicate LateStatement(a: Action) {
    a.InsertRow? || a.AuditAdd?
  }

  lemma LockMoves(w: World, a: Action)
    requires Recorded(w) && Enabled(w, a) && a.LockProfile?
    ensures OnlyMoves(w, Do(w, a), a.call)
  {
    var v := Do(w, a);
    assert OnlyMoves(w, v, a.call);
  }

  /** A call that only goes on to a place where it has no file yet. */
  lemma GoingOnMoves(w: World, c: nat, next: Call)
    requires Recorded(w) && !OwnsFile(next) && !HasItem(next)
    ensures OnlyMoves(w, At(w, c, next), c)
  {
  }

  lemma CountMoves(w: World, a: Action)
    requires Recorded(w) && Enabled(w, a) && a.CountItems?
    ensures OnlyMoves(w, Do(w, a), a.call)
  {
    var p := w.calls[a.call];
    var next := if |ItemsOf(w, p.user)| >= MAX_ITEMS then AddEnding(p.user) else AddCounted(p.user, p.size);
    GoingOnMoves(w, a.call, next);
    assert Do(w, a) == At(w, a.call, next);
  }

  lemma LateStatementMoves(w: World, a: Action)
    requires Recorded(w) && Enabled(w, a) && CallOk(w, a.call) && LateStatement(a)
    ensures OnlyMoves(w, Do(w, a), a.call)
  {
    var v := Do(w, a);
    assert OnlyMoves(w, v, a.call);
  }

  lemma BeginMoves(w: World, a: Action)
    requires Recorded(w) && Enabled(w, a) && (a.BeginAdd? || a.BeginDelete?)
    ensures OnlyMoves(w, Do(w, a), a.call) && CallOk(Do(w, a), a.call)
  {
    var v := Do(w, a);
    assert OnlyMoves(w, v, a.call) && CallOk(v, a.call);
  }

  lemma DeleteStatementMoves(w: World, a: Action)
    requires Recorded(w) && Enabled(w, a) && (a.DeleteRow? || a.AuditDelete?)
    ensures OnlyMoves(w, Do(w, a), a.call)
  {
    var v := Do(w, a);
    assert OnlyMoves(w, v, a.call);
  }

  // ----- the call that moved is in order -----

  lemma StopInOrder(w: World, a: Action)
    requires Enabled(w, a) && CallOk(w, a.call) && Stops(w, a)
    ensures CallOk(Do(w, a), a.call)
  {
    var v := Do(w, a);
    assert CallOk(v, a.call);
  }

  lemma FileStepInOrder(w: World, a: Action)
    requires Recorded(w) && Enabled(w, a) && CallOk(w, a.call) && FileStep(a)
    ensures CallOk(Do(w, a), a.call)
  {
  }

  lemma FailureInOrder(w: World, a: Action)
    requires Enabled(w, a) && CallOk(w, a.call) && a.StatementFails? && !Stops(w, a)
    ensures CallOk(Do(w, a), a.call)
  {
  }

  lemma EarlyStatementInOrder(w: World, a: Action)
    requires Recorded(w) && Enabled(w, a) && CallOk(w, a.call) && EarlyStatement(a)
    ensures CallOk(Do(w, a), a.call)
  {
    var v := Do(w, a);
    assert CallOk(v, a.call);
  }

  lemma LateStatementInOrder(w: World, a: Action)
    requires Recorded(w) && Enabled(w, a) && CallOk(w, a.call) && LateStatement(a)
    ensures CallOk(Do(w, a), a.call)
  {
    var v := Do(w, a);
    assert CallOk(v, a.call);
  }

  lemma DeleteStatementInOrder(w: World, a: Action)
    requires Enabled(w, a) && CallOk(w, a.call) && (a.DeleteRow? || a.AuditDelete?)
    ensures CallOk(Do(w, a), a.call)
  {
  }

  lemma RowsStay(w: World, a: Action)
    requires Enabled(w, a) && !CommitStep(a)
    ensures Do(w, a).rows == w.rows
  {
  }

  lemma OtherStepKeepsInv(w: World, a: Action)
    requires Inv(w) && Enabled(w, a) && !CommitStep(a)
    ensures Inv(Do(w, a))
  {
    assert Recorded(w) by {
      forall i | i in w.rows ensures i in w.usedItems && w.rows[i].key in w.usedKeys { assert RowOk(w, i); }
    }
    assert CallOk(w, a.call);
    if Stops(w, a) {
      StopMoves(w, a);
      StopInOrder(w, a);
    } else if FileStep(a) {
      FileStepMoves(w, a);
      FileStepInOrder(w, a);
    } else if a.StatementFails? {
      FailureMoves(w, a);
      FailureInOrder(w, a);
    } else if EarlyStatement(a) {
      if a.LockProfile? { LockMoves(w, a); } else { CountMoves(w, a); }
      EarlyStatementInOrder(w, a);
    } else if LateStatement(a) {
      LateStatementMoves(w, a);
      LateStatementInOrder(w, a);
    } else if a.BeginAdd? || a.BeginDelete? {
      BeginMoves(w, a);
    } else {
      DeleteStatementMoves(w, a);
      DeleteStatementInOrder(w, a);
    }
    RowsStay(w, a);
    MoveKeepsInv(w, Do(w, a), a.call);
  }

  /** One step keeps the invariant. */
  lemma StepKeepsInv(w: World, a: Action)
    requires Inv(w) && Enabled(w, a)
    ensures Inv(Do(w, a))
  {
    if a.CommitAdd? {
      CommitAddKeepsInv(w, a);
    } else if a.CommitDelete? {
      CommitDeleteKeepsInv(w, a);
    } else {
      OtherStepKeepsInv(w, a);
    }
  }

  lemma {:induction false} RunKeepsInv(h: History, k: nat)
    requires h.IsRun() && k < |h.worlds|
    ensures Inv(h.worlds[k])
  {
    if k > 0 {
      RunKeepsInv(h, k - 1);
      assert h.Follows(k - 1);
      StepKeepsInv(h.worlds[k - 1], h.actions[k - 1]);
    } else {
      assert h.worlds[0] == EMPTY;
      forall user ensures ItemsOf(EMPTY, user) == {} {}
    }
  }

  /** Whatever fails or dies, and whenever: at most twelve committed rows a profile, and every one
      with its whole file on disk. */
  lemma RowsAlwaysBacked(h: History, k: nat)
    requires h.IsRun() && k < |h.worlds|
    ensures var w := h.worlds[k];
            && (forall user :: |ItemsOf(w, user)| <= MAX_ITEMS)
            && (forall i :: i in w.rows ==> w.rows[i].key in w.files && w.files[w.rows[i].key] == w.rows[i].size)
  {
    RunKeepsInv(h, k);
    forall i | i in h.worlds[k].rows
      ensures h.worlds[k].rows[i].key in h.worlds[k].files &&
                h.worlds[k].files[h.worlds[k].rows[i].key] == h.worlds[k].rows[i].size
    {
      assert RowOk(h.worlds[k], i);
    }
  }

  // ----- stray files -----

  function OwnKey(w: World, c: nat): set<nat> {
    if c in w.calls && OwnsFile(w.calls[c]) then {w.calls[c].key} else {}
  }

  lemma KeysMove(w: World, v: World, c: nat)
    requires Apart(w)
    requires forall d :: d != c ==> (d in w.calls <==> d in v.calls) && (d in w.calls ==> v.calls[d] == w.calls[d])
    ensures CallKeys(v) == CallKeys(w) - OwnKey(w, c) + OwnKey(v, c)
  {
    forall k ensures k in CallKeys(v) <==> k in CallKeys(w) - OwnKey(w, c) + OwnKey(v, c) {
      if k in CallKeys(v) {
        var d :| d in v.calls && OwnsFile(v.calls[d]) && v.calls[d].key == k;
        assert d != c ==> d in w.calls && OwnsFile(w.calls[d]) && w.calls[d].key == k;
      }
      if k in CallKeys(w) - OwnKey(w, c) {
        var d :| d in w.calls && OwnsFile(w.calls[d]) && w.calls[d].key == k;
        assert d in v.calls && OwnsFile(v.calls[d]) && v.calls[d].key == k;
      }
    }
  }

  lemma KeyAdded(rows: map<nat, Row>, item: nat, row: Row)
    requires item !in rows
    ensures KeysOf(rows[item := row]) == KeysOf(rows) + {row.key}
  {
    var after := rows[item := row];
    forall k ensures k in KeysOf(after) <==> k in KeysOf(rows) + {row.key} {
      if k in KeysOf(rows) {
        var i :| i in rows && rows[i].key == k;
        assert i in after && after[i].key == k;
      }
      assert item in after && after[item].key == row.key;
    }
  }

  lemma KeyRemoved(rows: map<nat, Row>, item: nat)
    requires item in rows && forall i, j :: i in rows && j in rows && i != j ==> rows[i].key != rows[j].key
    ensures KeysOf(rows - {item}) == KeysOf(rows) - {rows[item].key}
  {
    var after := rows - {item};
    forall k ensures k in KeysOf(after) <==> k in KeysOf(rows) - {rows[item].key} {
      if k in KeysOf(rows) - {rows[item].key} {
        var i :| i in rows && rows[i].key == k;
        assert i in after && after[i].key == k;
      }
    }
  }

  /** The deletion of a row hands its file over to the call, the insertion the other way round. */
  lemma RowKeysMove(w: World, a: Action)
    requires RowsOk(w) && Enabled(w, a) && CallOk(w, a.call) && CommitStep(a)
    ensures a.CommitAdd? ==> RowKeys(Do(w, a)) == RowKeys(w) + {w.calls[a.call].key}
    ensures a.CommitDelete? ==> RowKeys(Do(w, a)) == RowKeys(w) - {w.calls[a.call].key}
    ensures a.CommitDelete? ==> w.calls[a.call].key in RowKeys(w)
  {
    var v, p := Do(w, a), w.calls[a.call];
    assert FileOk(w, a.call) && LocksOk(w, a.call) && ItemOk(w, a.call);
    if a.CommitAdd? {
      KeyAdded(w.rows, p.item, Row(p.user, p.key, p.size));
      assert v.rows == w.rows[p.item := Row(p.user, p.key, p.size)];
    } else {
      KeyRemoved(w.rows, p.item);
      assert v.rows == w.rows - {p.item};
    }
  }

  lemma FilesMove(w: World, a: Action)
    requires Enabled(w, a) && !Leaks(a) && OwnKey(w, a.call) <= w.files.Keys
    ensures Do(w, a).files.Keys == w.files.Keys
              - (if a.RemoveFile? || a.RemoveStored? then OwnKey(w, a.call) else {})
              + (if a.OpenFile? then {a.key} else {})
  {
  }

  /** The steps after which somebody else, or nobody, is responsible for the file of the call. */
  predicate HandsOver(a: Action) {
    a.OpenFile? || a.CommitDelete? || a.CommitAdd? || a.RemoveFile? || a.RemoveStored?
  }

  lemma OwnKeyStays(w: World, a: Action)
    requires Enabled(w, a) && !Leaks(a) && !HandsOver(a)
    ensures OwnKey(Do(w, a), a.call) == OwnKey(w, a.call)
  {
    var v := Do(w, a);
    assert OwnKey(v, a.call) == OwnKey(w, a.call);
  }

  lemma OwnKeyHandedOver(w: World, a: Action)
    requires Enabled(w, a) && HandsOver(a)
    ensures OwnKey(Do(w, a), a.call) == if a.OpenFile? then {a.key}
              else if a.CommitDelete? then {w.calls[a.call].key} else {}
    ensures OwnKey(w, a.call) == if a.OpenFile? || a.CommitDelete? then {} else {w.calls[a.call].key}
  {
    var v := Do(w, a);
    assert OwnKey(v, a.call) == if a.OpenFile? then {a.key} else if a.CommitDelete? then {w.calls[a.call].key} else {};
  }

  lemma OtherCallsStay(w: World, a: Action)
    requires Enabled(w, a)
    ensures forall d :: d != a.call ==>
              (d in w.calls <==> d in Do(w, a).calls) && (d in w.calls ==> Do(w, a).calls[d] == w.calls[d])
  {
  }

  /** The balance of a step: what leaves the call leaves the disk or goes to a row, and conversely. */
  lemma Balance(w: World, v: World, before: set<nat>, after: set<nat>, removed: set<nat>, added: set<nat>)
    requires NoStrayFiles(w) && before <= CallKeys(w) && before !! RowKeys(w)
    requires CallKeys(v) == CallKeys(w) - before + after
    requires v.files.Keys == w.files.Keys - removed + added
    requires || (RowKeys(v) == RowKeys(w) && removed <= before && after == before - removed + added)
             || (RowKeys(v) == RowKeys(w) + before && after == {} && removed == {} && added == {})
             || (RowKeys(v) == RowKeys(w) - after && after <= RowKeys(w)
                 && before == {} && removed == {} && added == {})
    requires before == {} || added == {}
    ensures NoStrayFiles(v)
  {
  }

  lemma StepLeavesNoStrayFile(w: World, a: Action)
    requires RowsOk(w) && Apart(w) && CallOk(w, a.call) && NoStrayFiles(w) && Enabled(w, a) && !Leaks(a)
    ensures NoStrayFiles(Do(w, a))
  {
    var v, c := Do(w, a), a.call;
    OtherCallsStay(w, a);
    KeysMove(w, v, c);
    assert OwnKey(w, c) <= CallKeys(w);
    assert OwnKey(w, c) !! RowKeys(w);
    FilesMove(w, a);
    if CommitStep(a) { CommitKeys(w, a); } else { QuietKeys(w, a); }
    Balance(w, v, OwnKey(w, c), OwnKey(v, c),
            if a.RemoveFile? || a.RemoveStored? then OwnKey(w, c) else {}, if a.OpenFile? then {a.key} else {});
  }

  lemma QuietKeys(w: World, a: Action)
    requires RowsOk(w) && Enabled(w, a) && CallOk(w, a.call) && !Leaks(a) && !CommitStep(a)
    ensures var v, before, after := Do(w, a), OwnKey(w, a.call), OwnKey(Do(w, a), a.call);
            && RowKeys(v) == RowKeys(w)
            && after == before - (if a.RemoveFile? || a.RemoveStored? then before else {})
                        + (if a.OpenFile? then {a.key} else {})
            && (a.OpenFile? ==> before == {})
  {
    var v := Do(w, a);
    if HandsOver(a) { OwnKeyHandedOver(w, a); } else { OwnKeyStays(w, a); }
    RowsStay(w, a);
    assert RowKeys(v) == RowKeys(w);
  }

  lemma CommitKeys(w: World, a: Action)
    requires RowsOk(w) && Enabled(w, a) && CallOk(w, a.call) && CommitStep(a)
    ensures var v, before, after := Do(w, a), OwnKey(w, a.call), OwnKey(Do(w, a), a.call);
            && (a.CommitAdd? ==> RowKeys(v) == RowKeys(w) + before && after == {})
            && (a.CommitDelete? ==> RowKeys(v) == RowKeys(w) - after && after <= RowKeys(w) && before == {})
  {
    OwnKeyHandedOver(w, a);
    RowKeysMove(w, a);
  }

  lemma {:induction false} RunLeavesNoStrayFile(h: History, k: nat)
    requires h.IsRun() && k < |h.worlds|
    requires forall m :: 0 <= m < k ==> !Leaks(h.actions[m])
    ensures NoStrayFiles(h.worlds[k])
  {
    if k > 0 {
      RunLeavesNoStrayFile(h, k - 1);
      RunKeepsInv(h, k - 1);
      assert h.Follows(k - 1);
      assert CallOk(h.worlds[k - 1], h.actions[k - 1].call);
      StepLeavesNoStrayFile(h.worlds[k - 1], h.actions[k - 1]);
    } else {
      assert RowKeys(EMPTY) == {} && CallKeys(EMPTY) == {};
    }
  }

  /** If nothing crashed and every removal worked, then whenever no call is in flight the files on
      disk are exactly those of the committed rows. */
  lemma QuietDiskIsExact(h: History, k: nat)
    requires h.IsRun() && k < |h.worlds| && h.worlds[k].calls == map[]
    requires forall m :: 0 <= m < k ==> !Leaks(h.actions[m])
    ensures h.worlds[k].files.Keys == RowKeys(h.worlds[k])
  {
    RunLeavesNoStrayFile(h, k);
    assert CallKeys(h.worlds[k]) == {};
  }
}
