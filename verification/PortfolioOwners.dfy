/**
 Whose rows an upload adds and a deletion removes, told by the rows, the actions and the arguments each
 call began with; and that a call which runs alone does its work.
 */
module PortfolioOwners {
  import opened Wrappers
  import opened Portfolio
  import opened PortfolioSafety

  // ----- what a call began with -----

  predicate Begins(a: Action, c: nat) {
    (a.BeginAdd? || a.BeginDelete?) && a.call == c
  }

  /** Step `m` is the last before step `k` at which call `c` began. */
  ghost predicate BeganAt(h: History, m: nat, k: nat, c: nat) {
    && m < k <= |h.actions| && Begins(h.actions[m], c)
    && forall n :: m < n < k ==> !Begins(h.actions[n], c)
  }

  /** The local variables of a call are the arguments it began with. */
  predicate ActsFor(p: Call, a: Action) {
    match p
    case AddStarted(user, size) => a.BeginAdd? && a.user == user && a.size == size
    case AddLocked(user, size) => a.BeginAdd? && a.user == user && a.size == size
    case AddCounted(user, size) => a.BeginAdd? && a.user == user && a.size == size
    case AddOpened(user, size, _) => a.BeginAdd? && a.user == user && a.size == size
    case AddWritten(user, size, _) => a.BeginAdd? && a.user == user && a.size == size
    case AddInserted(user, size, _, _) => a.BeginAdd? && a.user == user && a.size == size
    case AddAudited(user, size, _, _) => a.BeginAdd? && a.user == user && a.size == size
    case AddFailing(user, _) => a.BeginAdd? && a.user == user
    case AddEnding(user) => a.BeginAdd? && a.user == user
    case DelStarted(user, item) => a.BeginDelete? && a.user == user && a.item == item
    case DelDeleted(user, item, _) => a.BeginDelete? && a.user == user && a.item == item
    case DelAudited(user, item, _) => a.BeginDelete? && a.user == user && a.item == item
    case DelCommitted(_) => a.BeginDelete?
  }

  lemma BeginActsFor(w: World, a: Action)
    requires Enabled(w, a) && (a.BeginAdd? || a.BeginDelete?)
    ensures a.call in Do(w, a).calls && ActsFor(Do(w, a).calls[a.call], a)
  {
    var v := Do(w, a);
    assert v.calls[a.call] == if a.BeginAdd? then AddStarted(a.user, a.size) else DelStarted(a.user, a.item);
  }

  predicate DeleteStep(a: Action) {
    a.DeleteRow? || a.AuditDelete? || a.CommitDelete?
  }

  lemma UploadStepActsFor(w: World, a: Action, began: Action)
    requires Enabled(w, a) && (FileStep(a) || EarlyStatement(a) || LateStatement(a))
    requires a.call in w.calls && ActsFor(w.calls[a.call], began) && a.call in Do(w, a).calls
    ensures ActsFor(Do(w, a).calls[a.call], began)
  {
    var q := Do(w, a).calls[a.call];
    assert ActsFor(q, began);
  }

  lemma DeleteStepActsFor(w: World, a: Action, began: Action)
    requires Enabled(w, a) && DeleteStep(a)
    requires a.call in w.calls && ActsFor(w.calls[a.call], began) && a.call in Do(w, a).calls
    ensures ActsFor(Do(w, a).calls[a.call], began)
  {
    var q := Do(w, a).calls[a.call];
    assert ActsFor(q, began);
  }

  lemma FailureActsFor(w: World, a: Action, began: Action)
    requires Enabled(w, a) && (a.StatementFails? || a.ServerAborts?)
    requires a.call in w.calls && ActsFor(w.calls[a.call], began) && a.call in Do(w, a).calls
    ensures ActsFor(Do(w, a).calls[a.call], began)
  {
    var q := Do(w, a).calls[a.call];
    assert ActsFor(q, began);
  }

  lemma EndedIsGone(w: World, a: Action)
    requires Enabled(w, a) && a.call in Do(w, a).calls
    ensures a.BeginAdd? || a.BeginDelete? || FileStep(a) || EarlyStatement(a) || LateStatement(a) || DeleteStep(a)
         || a.StatementFails? || a.ServerAborts?
    ensures !a.BeginAdd? && !a.BeginDelete? ==> a.call in w.calls
  {
  }

  lemma StepActsFor(w: World, a: Action, c: nat, began: Action)
    requires Enabled(w, a) && c in Do(w, a).calls && !Begins(a, c)
    ensures c in w.calls && (ActsFor(w.calls[c], began) ==> ActsFor(Do(w, a).calls[c], began))
  {
    OtherCallsStay(w, a);
    if c == a.call {
      EndedIsGone(w, a);
      if ActsFor(w.calls[c], began) {
        if FileStep(a) || EarlyStatement(a) || LateStatement(a) {
          UploadStepActsFor(w, a, began);
        } else if DeleteStep(a) {
          DeleteStepActsFor(w, a, began);
        } else {
          FailureActsFor(w, a, began);
        }
      }
    }
  }

  lemma {:induction false} CallsActFor(h: History, k: nat, c: nat) returns (m: nat)
    requires h.IsRun() && k < |h.worlds| && c in h.worlds[k].calls
    ensures BeganAt(h, m, k, c) && ActsFor(h.worlds[k].calls[c], h.actions[m])
  {
    if k == 0 {
      assert false;
    } else {
      var w, a := h.worlds[k - 1], h.actions[k - 1];
      assert h.Follows(k - 1);
      if Begins(a, c) {
        BeginActsFor(w, a);
        m := k - 1;
      } else {
        StepActsFor(w, a, c, a);
        m := CallsActFor(h, k - 1, c);
        StepActsFor(w, a, c, h.actions[m]);
      }
    }
  }

  // ----- a deletion holds a row of its own user -----

  ghost predicate OwnsRow(w: World, c: nat) {
    c in w.calls && c !in w.aborted && HoldsItem(w.calls[c]) ==>
      w.calls[c].item in w.rows && w.rows[w.calls[c].item].owner == w.calls[c].user
  }

  ghost predicate OwnersOk(w: World) {
    forall c :: c in w.calls ==> OwnsRow(w, c)
  }

  lemma ActorOwns(w: World, a: Action)
    requires Enabled(w, a) && OwnsRow(w, a.call)
    ensures OwnsRow(Do(w, a), a.call)
  {
    var v := Do(w, a);
    assert OwnsRow(v, a.call);
  }

  lemma OtherOwns(w: World, a: Action, d: nat)
    requires Inv(w) && Enabled(w, a) && OwnsRow(w, d) && d != a.call && d in w.calls
    ensures OwnsRow(Do(w, a), d)
  {
    var v := Do(w, a);
    OtherCallsStay(w, a);
    assert LocksOk(w, d);
    if CommitStep(a) {
      assert LocksOk(w, a.call) && ItemOk(w, a.call);
      assert a.call !in w.aborted;
    } else {
      RowsStay(w, a);
    }
    AbortedGrows(w, a, d);
    assert OwnsRow(v, d);
  }

  lemma AbortedGrows(w: World, a: Action, d: nat)
    requires Enabled(w, a) && d != a.call
    ensures d in w.aborted ==> d in Do(w, a).aborted
  {
  }

  lemma {:induction false} RunKeepsOwners(h: History, k: nat)
    requires h.IsRun() && k < |h.worlds|
    ensures OwnersOk(h.worlds[k])
  {
    if k == 0 {
      assert h.worlds[0] == EMPTY;
    } else {
      var w, a := h.worlds[k - 1], h.actions[k - 1];
      RunKeepsOwners(h, k - 1);
      RunKeepsInv(h, k - 1);
      assert h.Follows(k - 1);
      OtherCallsStay(w, a);
      forall c | c in h.worlds[k].calls ensures OwnsRow(h.worlds[k], c) {
        if c == a.call { ActorOwns(w, a); } else { OtherOwns(w, a, c); }
      }
    }
  }

  // ----- who changes the rows -----

  /** In every run a row disappears only by the commit of a deletion that its owner asked for by its id. */
  lemma OnlyTheOwnerDeletes(h: History, k: nat, i: nat) returns (m: nat)
    requires h.IsRun() && k < |h.actions| && i in h.worlds[k].rows && i !in h.worlds[k + 1].rows
    ensures h.actions[k].CommitDelete? && BeganAt(h, m, k, h.actions[k].call)
    ensures h.actions[m] == BeginDelete(h.actions[k].call, h.worlds[k].rows[i].owner, i)
  {
    var w, a := h.worlds[k], h.actions[k];
    assert h.Follows(k);
    if !CommitStep(a) { RowsStay(w, a); }
    RunKeepsOwners(h, k);
    assert OwnsRow(w, a.call);
    m := CallsActFor(h, k, a.call);
  }

  /** In every run a row that stays is the same row. */
  lemma RowsNeverChange(h: History, k: nat, i: nat)
    requires h.IsRun() && k < |h.actions| && i in h.worlds[k].rows && i in h.worlds[k + 1].rows
    ensures h.worlds[k + 1].rows[i] == h.worlds[k].rows[i]
  {
    var w, a := h.worlds[k], h.actions[k];
    assert h.Follows(k);
    RunKeepsInv(h, k);
    if CommitStep(a) {
      assert ItemOk(w, a.call);
    } else {
      RowsStay(w, a);
    }
  }

  /** The committed rows of a user. */
  function RowsOfUser(w: World, user: int): set<nat> {
    set i | i in w.rows && w.rows[i].owner == user
  }

  /** In every run a row appears only by the commit of an upload that asked for its owner and its size. */
  lemma OnlyAnUploadAdds(h: History, k: nat, i: nat) returns (m: nat)
    requires h.IsRun() && k < |h.actions| && i !in h.worlds[k].rows && i in h.worlds[k + 1].rows
    ensures h.actions[k].CommitAdd? && BeganAt(h, m, k, h.actions[k].call)
    ensures var row := h.worlds[k + 1].rows[i];
            && h.actions[m] == BeginAdd(h.actions[k].call, row.owner, row.size) && 1 <= row.size <= 5_242_880
            && |RowsOfUser(h.worlds[k], row.owner)| < 12
  {
    var w, a := h.worlds[k], h.actions[k];
    assert h.Follows(k);
    RunKeepsInv(h, k);
    if !CommitStep(a) { RowsStay(w, a); }
    assert LocksOk(w, a.call);
    m := CallsActFor(h, k, a.call);
    assert h.Follows(m);
    assert RowsOfUser(w, w.calls[a.call].user) == ItemsOf(w, w.calls[a.call].user);
  }

  /** In every run a deletion answers "found nothing" only when no committed row of that id belongs to the
      user who asked. */
  lemma NothingToDelete(h: History, k: nat) returns (m: nat)
    requires h.IsRun() && k < |h.actions| && h.actions[k].DeleteFindsNothing?
    ensures BeganAt(h, m, k, h.actions[k].call) && h.actions[m].BeginDelete?
    ensures h.actions[m].item !in RowsOfUser(h.worlds[k], h.actions[m].user)
  {
    assert h.Follows(k);
    m := CallsActFor(h, k, h.actions[k].call);
  }

  /** In every run an upload is refused for its number exactly when its user has twelve committed rows. */
  lemma RefusedAtTwelve(h: History, k: nat) returns (m: nat)
    requires h.IsRun() && k < |h.actions| && h.actions[k].CountItems?
    ensures BeganAt(h, m, k, h.actions[k].call) && h.actions[m].BeginAdd?
    ensures h.actions[k].call in h.worlds[k + 1].calls
    ensures h.worlds[k + 1].calls[h.actions[k].call]
            == if |RowsOfUser(h.worlds[k], h.actions[m].user)| < 12
               then AddCounted(h.actions[m].user, h.actions[m].size)
               else AddEnding(h.actions[m].user)
  {
    assert h.Follows(k);
    m := CallsActFor(h, k, h.actions[k].call);
    assert RowsOfUser(h.worlds[k], h.actions[m].user) == ItemsOf(h.worlds[k], h.actions[m].user);
  }

  // ----- a call that runs alone -----

  /** The actions are possible one after the other, and lead to the world given. */
  ghost predicate Leads(w: World, actions: seq<Action>, v: World)
    decreases |actions|
  {
    if |actions| == 0 then v == w else Enabled(w, actions[0]) && Leads(Do(w, actions[0]), actions[1..], v)
  }

  lemma ThenLeads(w: World, a: Action, rest: seq<Action>, v: World)
    requires Enabled(w, a) && Leads(Do(w, a), rest, v)
    ensures Leads(w, [a] + rest, v)
  {
    assert ([a] + rest)[1..] == rest;
  }

  lemma {:induction false} LeadsOn(w: World, first: seq<Action>, u: World, second: seq<Action>, v: World)
    requires Leads(w, first, u) && Leads(u, second, v)
    ensures Leads(w, first + second, v)
    decreases |first|
  {
    if |first| == 0 {
      assert first + second == second;
    } else {
      LeadsOn(Do(w, first[0]), first[1..], u, second, v);
      assert (first + second)[1..] == first[1..] + second;
    }
  }

  lemma OneLeads(w: World, a: Action)
    requires Enabled(w, a)
    ensures Leads(w, [a], Do(w, a))
  {
    assert [a][1..] == [];
  }

  lemma TwoLead(w: World, a: Action, b: Action)
    requires Enabled(w, a) && Enabled(Do(w, a), b)
    ensures Leads(w, [a, b], Do(Do(w, a), b))
  {
    OneLeads(w, a);
    OneLeads(Do(w, a), b);
    LeadsOn(w, [a], Do(w, a), [b], Do(Do(w, a), b));
    assert [a] + [b] == [a, b];
  }

  /** Before it has a file, an upload takes the lock and the count. */
  lemma UploadCounts(w: World, c: nat, user: int, size: nat) returns (v: World)
    requires c !in w.calls && 1 <= size <= 5_242_880 && user !in w.profileLocks
    ensures Leads(w, [BeginAdd(c, user, size), LockProfile(c), CountItems(c)], v)
    ensures v == w.(calls := v.calls, aborted := w.aborted - {c}, profileLocks := w.profileLocks[user := c])
    ensures v.calls == w.calls[c := if |RowsOfUser(w, user)| < 12 then AddCounted(user, size) else AddEnding(user)]
  {
    var a := Do(w, BeginAdd(c, user, size));
    var b := Do(a, LockProfile(c));
    v := Do(b, CountItems(c));
    assert RowsOfUser(w, user) == ItemsOf(b, user);
    TwoLead(w, BeginAdd(c, user, size), LockProfile(c));
    OneLeads(b, CountItems(c));
    LeadsOn(w, [BeginAdd(c, user, size), LockProfile(c)], b, [CountItems(c)], v);
    assert [BeginAdd(c, user, size), LockProfile(c)] + [CountItems(c)]
        == [BeginAdd(c, user, size), LockProfile(c), CountItems(c)];
  }

  lemma UploadWrites(w: World, c: nat, key: nat, item: nat) returns (v: World)
    requires c in w.calls && w.calls[c].AddCounted? && c !in w.aborted && key !in w.usedKeys && item !in w.usedItems
    ensures Leads(w, [OpenFile(c, key), WriteAll(c), InsertRow(c, item)], v)
    ensures v.calls == w.calls[c := AddInserted(w.calls[c].user, w.calls[c].size, key, item)]
    ensures v.rows == w.rows && v.files == w.files[key := w.calls[c].size] && v.aborted == w.aborted
  {
    var a := Do(w, OpenFile(c, key));
    var b := Do(a, WriteAll(c));
    v := Do(b, InsertRow(c, item));
    TwoLead(w, OpenFile(c, key), WriteAll(c));
    OneLeads(b, InsertRow(c, item));
    LeadsOn(w, [OpenFile(c, key), WriteAll(c)], b, [InsertRow(c, item)], v);
    assert [OpenFile(c, key), WriteAll(c)] + [InsertRow(c, item)]
        == [OpenFile(c, key), WriteAll(c), InsertRow(c, item)];
  }

  lemma UploadCommits(w: World, c: nat) returns (v: World)
    requires c in w.calls && w.calls[c].AddInserted? && c !in w.aborted
    ensures Leads(w, [AuditAdd(c), CommitAdd(c)], v)
    ensures v.calls == w.calls - {c} && v.files == w.files
    ensures var p := w.calls[c]; v.rows == w.rows[p.item := Row(p.user, p.key, p.size)]
  {
    v := Do(Do(w, AuditAdd(c)), CommitAdd(c));
    TwoLead(w, AuditAdd(c), CommitAdd(c));
    assert v.calls == w.calls - {c};
  }

  function Upload(c: nat, user: int, size: nat, key: nat, item: nat): seq<Action> {
    [BeginAdd(c, user, size), LockProfile(c), CountItems(c)]
    + ([OpenFile(c, key), WriteAll(c), InsertRow(c, item)] + [AuditAdd(c), CommitAdd(c)])
  }

  /** An upload that nothing disturbs adds its row and its file while the user has fewer than twelve rows. */
  lemma UploadAlone(w: World, c: nat, user: int, size: nat, key: nat, item: nat) returns (v: World)
    requires c !in w.calls && 1 <= size <= 5_242_880 && user !in w.profileLocks
    requires key !in w.usedKeys && item !in w.usedItems && |RowsOfUser(w, user)| < 12
    ensures Leads(w, Upload(c, user, size, key, item), v)
    ensures v.rows == w.rows[item := Row(user, key, size)] && v.files == w.files[key := size] && v.calls == w.calls
  {
    var a := UploadCounts(w, c, user, size);
    var b := UploadWrites(a, c, key, item);
    v := UploadCommits(b, c);
    LeadsOn(a, [OpenFile(c, key), WriteAll(c), InsertRow(c, item)], b, [AuditAdd(c), CommitAdd(c)], v);
    LeadsOn(w, [BeginAdd(c, user, size), LockProfile(c), CountItems(c)], a,
            [OpenFile(c, key), WriteAll(c), InsertRow(c, item)] + [AuditAdd(c), CommitAdd(c)], v);
    assert v.calls == w.calls;
  }

  /** With twelve rows it ends and leaves rows and files as they were. */
  lemma UploadRefused(w: World, c: nat, user: int, size: nat) returns (v: World)
    requires c !in w.calls && 1 <= size <= 5_242_880 && user !in w.profileLocks && |RowsOfUser(w, user)| >= 12
    ensures Leads(w, [BeginAdd(c, user, size), LockProfile(c), CountItems(c)] + [EndAdd(c)], v)
    ensures v.rows == w.rows && v.files == w.files && v.calls == w.calls
  {
    var a := UploadCounts(w, c, user, size);
    v := Do(a, EndAdd(c));
    OneLeads(a, EndAdd(c));
    LeadsOn(w, [BeginAdd(c, user, size), LockProfile(c), CountItems(c)], a, [EndAdd(c)], v);
    assert v.calls == w.calls;
  }

  /** A deletion that nothing disturbs removes the row and its file when the row is the user's. */
  lemma DeleteAlone(w: World, c: nat, user: int, item: nat) returns (v: World)
    requires c !in w.calls && item !in w.itemLocks && item in RowsOfUser(w, user)
    ensures Leads(w, [BeginDelete(c, user, item), DeleteRow(c)]
                     + ([AuditDelete(c), CommitDelete(c)] + [RemoveStored(c, true)]), v)
    ensures v.rows == w.rows - {item} && v.files == w.files - {w.rows[item].key} && v.calls == w.calls
  {
    var a := Do(w, BeginDelete(c, user, item));
    assert item in ItemsOf(a, user);
    var b := Do(a, DeleteRow(c));
    TwoLead(w, BeginDelete(c, user, item), DeleteRow(c));
    assert b.calls[c] == DelDeleted(user, item, w.rows[item].key) && b.rows == w.rows && b.files == w.files;
    v := DeleteCommits(b, c);
    LeadsOn(w, [BeginDelete(c, user, item), DeleteRow(c)], b,
            [AuditDelete(c), CommitDelete(c)] + [RemoveStored(c, true)], v);
    assert b.calls == w.calls[c := b.calls[c]];
    assert v.calls == w.calls;
  }

  lemma DeleteCommits(w: World, c: nat) returns (v: World)
    requires c in w.calls && w.calls[c].DelDeleted? && c !in w.aborted
    ensures Leads(w, [AuditDelete(c), CommitDelete(c)] + [RemoveStored(c, true)], v)
    ensures v.rows == w.rows - {w.calls[c].item} && v.files == w.files - {w.calls[c].key} && v.calls == w.calls - {c}
  {
    var b := Do(Do(w, AuditDelete(c)), CommitDelete(c));
    assert b.calls[c] == DelCommitted(w.calls[c].key);
    v := Do(b, RemoveStored(c, true));
    TwoLead(w, AuditDelete(c), CommitDelete(c));
    OneLeads(b, RemoveStored(c, true));
    LeadsOn(w, [AuditDelete(c), CommitDelete(c)], b, [RemoveStored(c, true)], v);
    assert v.calls == w.calls - {c};
  }

  /** Otherwise it finds nothing and changes nothing. */
  lemma DeleteFindsOthers(w: World, c: nat, user: int, item: nat)
    requires c !in w.calls && item !in RowsOfUser(w, user)
    ensures Enabled(w, BeginDelete(c, user, item))
    ensures var a := Do(w, BeginDelete(c, user, item));
            && Enabled(a, DeleteFindsNothing(c)) && !Enabled(a, DeleteRow(c))
            && Do(a, DeleteFindsNothing(c)).rows == w.rows && Do(a, DeleteFindsNothing(c)).files == w.files
  {
    var a := Do(w, BeginDelete(c, user, item));
    assert ItemsOf(a, user) == RowsOfUser(w, user);
  }
}
