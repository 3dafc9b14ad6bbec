/** What every interleaving of logins, refreshes and resets keeps. */
module SessionSafety {
  import opened Wrappers
  import opened Sessions

  // ----- the invariant -----

  /** What a reset knows while its revoking statement runs: every live token of the user that was
      committed before the statement is still to be visited or already locked. */
  ghost predicate RevokingOk(w: World, p: Call)
    requires p.ResetRevoking? && p.mail in w.mails
  {
    var user := w.mails[p.mail].user;
    && p.since < w.clock
    && (forall t :: t in p.todo || t in p.done ==> Before(w, t, user, p.since))
    && (forall t :: t in w.tokens && w.tokens[t].user == user && !w.tokens[t].revoked
                    && w.tokens[t].committedAt < p.since ==>
          t in p.todo || t in p.done)
  }

  predicate Before(w: World, t: nat, user: string, since: nat) {
    t in w.tokens && w.tokens[t].user == user && w.tokens[t].committedAt < since
  }

  ghost predicate CallOk(w: World, c: nat)
    requires c in w.calls
  {
    var p := w.calls[c];
    && (forall id :: LocksToken(p, id) ==> Live(w, id))
    && (forall mail :: LocksMail(p, mail) ==> mail in w.mails && !w.mails[mail].used)
    && (p.RefreshInserted? ==> p.id in w.usedIds && p.id !in w.tokens)
    && (p.LoginChecked? ==> p.origin.at < w.clock)
    && (p.ResetRevoking? ==> RevokingOk(w, p))
  }

  /** No two calls hold the same lock, or the same new id. */
  ghost predicate Apart(p: Call, q: Call) {
    && (forall id :: !(LocksToken(p, id) && LocksToken(q, id)))
    && (forall mail :: !(LocksMail(p, mail) && LocksMail(q, mail)))
    && (p.RefreshInserted? && q.RefreshInserted? ==> p.id != q.id)
  }

  ghost predicate CallsApart(w: World) {
    forall c, d :: c in w.calls && d in w.calls && c != d ==> Apart(w.calls[c], w.calls[d])
  }

  /** A token was exchanged for at most one other, later one, and then revoked. */
  ghost predicate TokenOk(w: World, t: nat)
    requires t in w.tokens
  {
    var x := w.tokens[t];
    && t in w.usedIds && x.committedAt < w.clock && x.origin.at < w.clock
    && (x.parent.Some? ==>
          && x.parent.value in w.tokens
          && var y := w.tokens[x.parent.value];
             y.revoked && y.user == x.user && y.origin == x.origin && y.committedAt < x.committedAt)
  }

  ghost predicate OneSuccessor(w: World) {
    forall t, u :: t in w.tokens && u in w.tokens && t != u && w.tokens[t].parent.Some? ==>
      w.tokens[t].parent != w.tokens[u].parent
  }

  ghost predicate Inv(w: World) {
    && (forall c :: c in w.calls ==> CallOk(w, c))
    && CallsApart(w)
    && (forall t :: t in w.tokens ==> TokenOk(w, t))
    && OneSuccessor(w)
    && (forall mail :: mail in w.mails ==> w.mails[mail].user in w.users)
  }

  // ----- one step, seen by the calls that do not take it -----

  /** The call that takes the step, or -1. */
  function Actor(a: Action): int {
    match a
    case BeginLogin(c, _, _) => c
    case CheckPassword(c) => c
    case InsertSession(c, _) => c
    case BeginRefresh(c, _) => c
    case ConsumeToken(c) => c
    case CheckHolder(c) => c
    case InsertSuccessor(c, _) => c
    case CommitRefresh(c) => c
    case BeginReset(c, _, _) => c
    case ConsumeMail(c) => c
    case UpdatePassword(c) => c
    case StartRevoking(c) => c
    case RevokeRow(c, _) => c
    case CommitReset(c) => c
    case Stop(c) => c
    case _ => -1
  }

  /** No call but `c` holds the lock. */
  predicate OthersLeaveToken(w: World, c: int, id: nat) {
    forall d :: d in w.calls && d != c ==> !LocksToken(w.calls[d], id)
  }

  predicate OthersLeaveMail(w: World, c: int, mail: nat) {
    forall d :: d in w.calls && d != c ==> !LocksMail(w.calls[d], mail)
  }

  /** Rows are only added, and written only where no other call holds the lock. */
  ghost predicate TokensMove(w: World, v: World, c: int) {
    && w.tokens.Keys <= v.tokens.Keys
    && (forall t :: t in w.tokens ==>
          v.tokens[t] == w.tokens[t] || (v.tokens[t] == w.tokens[t].(revoked := true) && OthersLeaveToken(w, c, t)))
    && (forall t :: t in v.tokens && t !in w.tokens ==> v.tokens[t].committedAt == w.clock && !v.tokens[t].revoked)
    && (forall t, d :: t in v.tokens && t !in w.tokens && d in w.calls && d != c && w.calls[d].RefreshInserted? ==>
          w.calls[d].id != t)
  }

  ghost predicate MailsMove(w: World, v: World, c: int) {
    && w.mails.Keys <= v.mails.Keys
    && forall mail :: mail in w.mails ==>
         v.mails[mail] == w.mails[mail] || (v.mails[mail].user == w.mails[mail].user && OthersLeaveMail(w, c, mail))
  }

  ghost predicate OthersStay(w: World, v: World, c: int) {
    && (forall d: nat :: d != c ==> (d in v.calls <==> d in w.calls))
    && (forall d :: d in w.calls && d != c ==> v.calls[d] == w.calls[d])
  }

  ghost predicate Moves(w: World, v: World, c: int) {
    && v.clock == w.clock + 1 && w.usedIds <= v.usedIds && w.users.Keys <= v.users.Keys
    && OthersStay(w, v, c) && TokensMove(w, v, c) && MailsMove(w, v, c)
  }

  lemma OtherCallOk(w: World, v: World, c: int, d: nat)
    requires Moves(w, v, c) && d in w.calls && d != c && CallOk(w, d)
    ensures d in v.calls && CallOk(v, d)
  {
    var p := w.calls[d];
    forall id | LocksToken(p, id) ensures Live(v, id) {
      assert Live(w, id);
    }
    forall mail | LocksMail(p, mail) ensures mail in v.mails && !v.mails[mail].used {
      assert mail in w.mails && !w.mails[mail].used;
    }
    if p.ResetRevoking? {
      assert LocksMail(p, p.mail);
      OtherRevokingOk(w, v, c, p);
    }
  }

  lemma OtherRevokingOk(w: World, v: World, c: int, p: Call)
    requires Moves(w, v, c) && p.ResetRevoking? && p.mail in w.mails && RevokingOk(w, p)
    ensures RevokingOk(v, p)
  {
    forall t | t in p.todo || t in p.done ensures Before(v, t, v.mails[p.mail].user, p.since) {
      assert Before(w, t, w.mails[p.mail].user, p.since);
    }
    forall t | t in v.tokens && v.tokens[t].user == v.mails[p.mail].user && !v.tokens[t].revoked
               && v.tokens[t].committedAt < p.since
      ensures t in p.todo || t in p.done
    {
      assert t in w.tokens;
    }
  }

  /** The locks and the id that the acting call has after the step: its own from before, or free ones. */
  ghost predicate TakesFree(w: World, v: World, c: int) {
    c in v.calls ==>
      && (forall id :: LocksToken(v.calls[c], id) ==> OthersLeaveToken(w, c, id))
      && (forall mail :: LocksMail(v.calls[c], mail) ==> OthersLeaveMail(w, c, mail))
      && (v.calls[c].RefreshInserted? ==>
            forall d :: d in w.calls && d != c && w.calls[d].RefreshInserted? ==> w.calls[d].id != v.calls[c].id)
  }

  lemma OwnLocksAreFree(w: World, c: nat)
    requires CallsApart(w) && c in w.calls
    ensures forall id :: LocksToken(w.calls[c], id) ==> OthersLeaveToken(w, c, id)
    ensures forall mail :: LocksMail(w.calls[c], mail) ==> OthersLeaveMail(w, c, mail)
    ensures w.calls[c].RefreshInserted? ==>
              forall d :: d in w.calls && d != c && w.calls[d].RefreshInserted? ==> w.calls[d].id != w.calls[c].id
  {
    forall d | d in w.calls && d != c ensures Apart(w.calls[c], w.calls[d]) && Apart(w.calls[d], w.calls[c]) {}
  }

  lemma StillApart(w: World, v: World, c: int)
    requires CallsApart(w) && OthersStay(w, v, c) && TakesFree(w, v, c)
    ensures CallsApart(v)
  {
    forall d, e | d in v.calls && e in v.calls && d != e ensures Apart(v.calls[d], v.calls[e]) {
      if d != c && e != c {
        assert Apart(w.calls[d], w.calls[e]);
      }
    }
  }

  ghost predicate ActorOk(v: World, c: int) {
    c in v.calls ==> CallOk(v, c)
  }

  ghost predicate RowsOk(w: World) {
    && (forall t :: t in w.tokens ==> TokenOk(w, t))
    && OneSuccessor(w)
    && (forall mail :: mail in w.mails ==> w.mails[mail].user in w.users)
  }

  lemma MoveKeepsInv(w: World, v: World, c: int)
    requires Inv(w) && Moves(w, v, c) && TakesFree(w, v, c) && ActorOk(v, c) && RowsOk(v)
    ensures Inv(v)
  {
    StillApart(w, v, c);
    forall d | d in v.calls ensures CallOk(v, d) {
      if d != c { OtherCallOk(w, v, c, d); }
    }
  }

  /** Rows that nobody touched. */
  lemma SameRowsOk(w: World, v: World)
    requires RowsOk(w) && v.tokens == w.tokens && v.mails == w.mails && w.users.Keys <= v.users.Keys
    requires w.clock <= v.clock && w.usedIds <= v.usedIds
    ensures RowsOk(v)
  {
    forall t | t in v.tokens ensures TokenOk(v, t) {
      assert TokenOk(w, t);
    }
  }

  // ----- the steps that write no row -----

  predicate WritesRows(a: Action) {
    a.MailReset? || a.Invalidate? || a.Logout? || a.InsertSession? || a.CommitRefresh? || a.CommitReset?
  }

  lemma SameRowsMove(w: World, v: World, c: int)
    requires v.tokens == w.tokens && v.mails == w.mails && OthersStay(w, v, c)
    requires v.clock == w.clock + 1 && w.usedIds <= v.usedIds && w.users.Keys <= v.users.Keys
    ensures Moves(w, v, c)
  {
  }

  lemma OnlyActorMoves(w: World, a: Action)
    requires Enabled(w, a)
    ensures OthersStay(w, Do(w, a), Actor(a))
  {
    var v, c := Do(w, a), Actor(a);
    assert OthersStay(w, v, c);
  }

  lemma QuietRows(w: World, a: Action)
    requires Enabled(w, a) && !WritesRows(a)
    ensures var v := Do(w, a);
            && v.tokens == w.tokens && v.mails == w.mails
            && v.clock == w.clock + 1 && w.usedIds <= v.usedIds && w.users.Keys <= v.users.Keys
  {
  }

  lemma QuietMoves(w: World, a: Action)
    requires Enabled(w, a) && !WritesRows(a)
    ensures var v := Do(w, a);
            Moves(w, v, Actor(a)) && v.tokens == w.tokens && v.mails == w.mails
  {
    OnlyActorMoves(w, a);
    QuietRows(w, a);
    SameRowsMove(w, Do(w, a), Actor(a));
  }

  predicate Begins(a: Action) {
    a.BeginLogin? || a.CheckPassword? || a.BeginRefresh? || a.BeginReset? || a.Stop?
  }

  predicate Refreshes(a: Action) {
    a.ConsumeToken? || a.CheckHolder? || a.InsertSuccessor?
  }

  predicate Resets(a: Action) {
    a.ConsumeMail? || a.UpdatePassword?
  }

  lemma BeginInOrder(w: World, a: Action)
    requires Inv(w) && Enabled(w, a) && Begins(a)
    ensures TakesFree(w, Do(w, a), Actor(a)) && ActorOk(Do(w, a), Actor(a))
  {
    var v, c := Do(w, a), Actor(a);
    assert TakesFree(w, v, c) && ActorOk(v, c);
  }

  lemma RefreshInOrder(w: World, a: Action)
    requires Inv(w) && Enabled(w, a) && Refreshes(a)
    ensures TakesFree(w, Do(w, a), Actor(a)) && ActorOk(Do(w, a), Actor(a))
  {
    var v, c := Do(w, a), a.call;
    var p := w.calls[c];
    OwnLocksAreFree(w, c);
    assert CallOk(w, c);
    assert LocksToken(p, p.raw) ==> Live(w, p.raw);
    if a.InsertSuccessor? {
      forall d | d in w.calls && d != c && w.calls[d].RefreshInserted? ensures w.calls[d].id != a.id {
        assert CallOk(w, d);
      }
      forall t | t in w.tokens ensures t != a.id { assert TokenOk(w, t); }
    }
    assert TakesFree(w, v, c) && ActorOk(v, c);
  }

  lemma ResetInOrder(w: World, a: Action)
    requires Inv(w) && Enabled(w, a) && Resets(a)
    ensures TakesFree(w, Do(w, a), Actor(a)) && ActorOk(Do(w, a), Actor(a))
  {
    var v, c := Do(w, a), a.call;
    var p := w.calls[c];
    OwnLocksAreFree(w, c);
    assert CallOk(w, c);
    assert LocksMail(p, p.mail) ==> p.mail in w.mails && !w.mails[p.mail].used;
    assert TakesFree(w, v, c) && ActorOk(v, c);
  }

  lemma StartRevokingInOrder(w: World, a: Action)
    requires Inv(w) && Enabled(w, a) && a.StartRevoking?
    ensures TakesFree(w, Do(w, a), Actor(a)) && ActorOk(Do(w, a), Actor(a))
  {
    var v, c := Do(w, a), a.call;
    var p, q := w.calls[c], v.calls[c];
    OwnLocksAreFree(w, c);
    assert CallOk(w, c) && LocksMail(p, p.mail);
    forall t | t in q.todo ensures Before(v, t, w.mails[p.mail].user, q.since) { assert TokenOk(w, t); }
    assert RevokingOk(v, q);
    assert TakesFree(w, v, c);
    assert CallOk(v, c);
  }

  lemma RowVisited(w: World, v: World, p: Call, q: Call, id: nat)
    requires p.ResetRevoking? && p.mail in w.mails && RevokingOk(w, p) && id in p.todo
    requires q == p.(todo := p.todo - {id}, done := if Live(w, id) then p.done + {id} else p.done)
    requires v.tokens == w.tokens && v.mails == w.mails && w.clock <= v.clock
    ensures RevokingOk(v, q)
  {
    var user := w.mails[p.mail].user;
    forall t | t in q.todo || t in q.done ensures Before(v, t, user, q.since) {
      assert Before(w, t, user, p.since);
    }
  }

  lemma RevokeRowInOrder(w: World, a: Action)
    requires Inv(w) && Enabled(w, a) && a.RevokeRow?
    ensures TakesFree(w, Do(w, a), Actor(a)) && ActorOk(Do(w, a), Actor(a))
  {
    var v, c := Do(w, a), a.call;
    var p, q := w.calls[c], v.calls[c];
    OwnLocksAreFree(w, c);
    assert CallOk(w, c) && LocksMail(p, p.mail);
    forall t | t in q.done ensures Live(v, t) && OthersLeaveToken(w, c, t) {
      if t in p.done { assert LocksToken(p, t); }
    }
    RowVisited(w, v, p, q, a.id);
    assert TakesFree(w, v, c);
    assert CallOk(v, c);
  }

  // ----- the steps that write rows -----

  lemma MailStepKeepsInv(w: World, a: Action)
    requires Inv(w) && Enabled(w, a) && (a.MailReset? || a.Invalidate?)
    ensures Inv(Do(w, a))
  {
    var v := Do(w, a);
    OnlyActorMoves(w, a);
    assert MailsMove(w, v, -1);
    assert Moves(w, v, -1);
    forall t | t in v.tokens ensures TokenOk(v, t) { assert TokenOk(w, t); }
    assert RowsOk(v);
    MoveKeepsInv(w, v, -1);
  }

  /** Revoking leaves every token in order. */
  lemma RevokedOk(w: World, v: World, ids: set<nat>, t: nat)
    requires t in w.tokens && TokenOk(w, t)
    requires w.clock <= v.clock && w.usedIds <= v.usedIds
    requires forall u :: u in w.tokens ==> u in v.tokens && v.tokens[u] == Revoked(w.tokens, ids)[u]
    ensures TokenOk(v, t)
  {
  }

  lemma RevokedRowsOk(w: World, v: World, ids: set<nat>)
    requires RowsOk(w) && v.tokens == Revoked(w.tokens, ids) && w.clock <= v.clock && w.usedIds <= v.usedIds
    requires forall mail :: mail in v.mails ==> v.mails[mail].user in v.users
    ensures RowsOk(v)
  {
    forall t | t in v.tokens ensures TokenOk(v, t) { RevokedOk(w, v, ids, t); }
  }

  lemma RevokedTokensMove(w: World, v: World, c: int, ids: set<nat>)
    requires v.tokens == Revoked(w.tokens, ids)
    requires forall t :: t in ids && t in w.tokens ==> OthersLeaveToken(w, c, t)
    ensures TokensMove(w, v, c)
  {
  }

  lemma LogoutKeepsInv(w: World, a: Action)
    requires Inv(w) && Enabled(w, a) && a.Logout?
    ensures Inv(Do(w, a))
  {
    var v := Do(w, a);
    OnlyActorMoves(w, a);
    RevokedTokensMove(w, v, -1, {a.id});
    assert Moves(w, v, -1);
    RevokedRowsOk(w, v, {a.id});
    MoveKeepsInv(w, v, -1);
  }

  lemma InsertSessionMoves(w: World, a: Action)
    requires Inv(w) && Enabled(w, a) && a.InsertSession?
    ensures Moves(w, Do(w, a), a.call)
  {
    var v, c := Do(w, a), a.call;
    OnlyActorMoves(w, a);
    forall t | t in w.tokens ensures t != a.id { assert TokenOk(w, t); }
    forall d | d in w.calls && d != c && w.calls[d].RefreshInserted? ensures w.calls[d].id != a.id {
      assert CallOk(w, d);
    }
    assert TokensMove(w, v, c);
    assert Moves(w, v, c);
  }

  lemma InsertSessionKeepsInv(w: World, a: Action)
    requires Inv(w) && Enabled(w, a) && a.InsertSession?
    ensures Inv(Do(w, a))
  {
    var v, c := Do(w, a), a.call;
    InsertSessionMoves(w, a);
    assert CallOk(w, c);
    forall t | t in v.tokens ensures TokenOk(v, t) {
      if t in w.tokens && t != a.id { assert TokenOk(w, t); }
    }
    assert RowsOk(v);
    MoveKeepsInv(w, v, c);
  }

  /** The parent revoked, the successor added. */
  function Exchanged(w: World, raw: nat, id: nat): map<nat, Token>
    requires raw in w.tokens
  {
    Revoked(w.tokens, {raw})[id := Token(w.tokens[raw].user, false, Some(raw), w.tokens[raw].origin, w.clock)]
  }

  lemma ExchangeMoves(w: World, v: World, c: int, raw: nat, id: nat)
    requires raw in w.tokens && id !in w.tokens && v.tokens == Exchanged(w, raw, id)
    requires OthersLeaveToken(w, c, raw)
    requires forall d :: d in w.calls && d != c && w.calls[d].RefreshInserted? ==> w.calls[d].id != id
    ensures TokensMove(w, v, c)
  {
  }

  lemma ExchangedTokensOk(w: World, v: World, raw: nat, id: nat)
    requires forall t :: t in w.tokens ==> TokenOk(w, t)
    requires raw in w.tokens && id !in w.tokens && id in v.usedIds && v.tokens == Exchanged(w, raw, id)
    requires v.clock == w.clock + 1 && w.usedIds <= v.usedIds
    ensures forall t :: t in v.tokens ==> TokenOk(v, t)
  {
    assert TokenOk(w, raw);
    forall t | t in v.tokens ensures TokenOk(v, t) {
      if t in w.tokens { RevokedOk(w, v, {raw}, t); }
    }
  }

  lemma ExchangedOnce(w: World, v: World, raw: nat, id: nat)
    requires (forall t :: t in w.tokens ==> TokenOk(w, t)) && OneSuccessor(w)
    requires Live(w, raw) && id !in w.tokens && v.tokens == Exchanged(w, raw, id)
    ensures OneSuccessor(v)
  {
    forall t | t in w.tokens ensures v.tokens[t].parent == w.tokens[t].parent != Some(raw) {
      assert TokenOk(w, t);
    }
    forall t, u | t in v.tokens && u in v.tokens && t != u && v.tokens[t].parent.Some?
      ensures v.tokens[t].parent != v.tokens[u].parent
    {
      assert t in w.tokens || t == id;
      assert u in w.tokens || u == id;
    }
  }

  lemma CommitRefreshKeepsInv(w: World, a: Action)
    requires Inv(w) && Enabled(w, a) && a.CommitRefresh?
    ensures Inv(Do(w, a))
  {
    var v, c := Do(w, a), a.call;
    var p := w.calls[c];
    OnlyActorMoves(w, a);
    OwnLocksAreFree(w, c);
    assert CallOk(w, c) && LocksToken(p, p.raw);
    assert v.tokens == Exchanged(w, p.raw, p.id);
    ExchangeMoves(w, v, c, p.raw, p.id);
    assert Moves(w, v, c);
    ExchangedTokensOk(w, v, p.raw, p.id);
    ExchangedOnce(w, v, p.raw, p.id);
    assert RowsOk(v) && c !in v.calls;
    MoveKeepsInv(w, v, c);
  }

  lemma CommitResetKeepsInv(w: World, a: Action)
    requires Inv(w) && Enabled(w, a) && a.CommitReset?
    ensures Inv(Do(w, a))
  {
    var v, c := Do(w, a), a.call;
    var p := w.calls[c];
    OnlyActorMoves(w, a);
    OwnLocksAreFree(w, c);
    forall t | t in p.done ensures OthersLeaveToken(w, c, t) { assert LocksToken(p, t); }
    assert LocksMail(p, p.mail);
    RevokedTokensMove(w, v, c, p.done);
    assert MailsMove(w, v, c);
    assert Moves(w, v, c);
    RevokedRowsOk(w, v, p.done);
    assert c !in v.calls;
    MoveKeepsInv(w, v, c);
  }

  lemma QuietKeepsInv(w: World, a: Action)
    requires Inv(w) && Enabled(w, a) && !WritesRows(a)
    ensures Inv(Do(w, a))
  {
    var v, c := Do(w, a), Actor(a);
    QuietMoves(w, a);
    SameRowsOk(w, v);
    if Begins(a) {
      BeginInOrder(w, a);
    } else if Refreshes(a) {
      RefreshInOrder(w, a);
    } else if Resets(a) {
      ResetInOrder(w, a);
    } else if a.StartRevoking? {
      StartRevokingInOrder(w, a);
    } else if a.RevokeRow? {
      RevokeRowInOrder(w, a);
    } else {
      assert c == -1;
    }
    MoveKeepsInv(w, v, c);
  }

  /** Every step of every call keeps the invariant of tokens, locks and transactions in flight. */
  lemma StepKeepsInv(w: World, a: Action)
    requires Inv(w) && Enabled(w, a)
    ensures Inv(Do(w, a))
  {
    if a.MailReset? || a.Invalidate? {
      MailStepKeepsInv(w, a);
    } else if a.Logout? {
      LogoutKeepsInv(w, a);
    } else if a.InsertSession? {
      InsertSessionKeepsInv(w, a);
    } else if a.CommitRefresh? {
      CommitRefreshKeepsInv(w, a);
    } else if a.CommitReset? {
      CommitResetKeepsInv(w, a);
    } else {
      QuietKeepsInv(w, a);
    }
  }

  lemma EmptyIsInOrder()
    ensures Inv(EMPTY)
  {
  }

  lemma {:induction false} RunKeepsInv(h: History, k: nat)
    requires h.IsRun() && k < |h.worlds|
    ensures Inv(h.worlds[k]) && h.worlds[k].clock == k
  {
    if k == 0 {
      EmptyIsInOrder();
    } else {
      RunKeepsInv(h, k - 1);
      assert h.Follows(k - 1);
      StepKeepsInv(h.worlds[k - 1], h.actions[k - 1]);
    }
  }
}
