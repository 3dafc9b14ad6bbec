/**
 The interleaved calls when nothing disturbs them: each does what it is for. And the mailed token of a reset,
 which no interleaving lets two resets use.
 */
module SessionLaws {
  import opened Wrappers
  import opened Sessions
  import opened SessionSafety

  // ----- a call that runs alone -----

  /** The actions are possible one after the other, and lead to the world given. */
  ghost predicate Leads(w: World, actions: seq<Action>, v: World)
    decreases |actions|
  {
    if |actions| == 0 then v == w else Enabled(w, actions[0]) && Leads(Do(w, actions[0]), actions[1..], v)
  }

  lemma {:induction false} LeadsOn(w: World, first: seq<Action>, u: World, second: seq<Action>, v: World)
    requires Leads(w, first, u) && Leads(u, second, v)
    ensures Leads(w, first + second, v)
    decreases |first|
  {
    if |first| == 0 {
      assert first + second == second;
    } else {
      LeadsOn(Do(w, first[0]), first[1..], u, second, v);
      assert (first + second)[1..] == first[1..] + second;
    }
  }

  lemma OneLeads(w: World, a: Action)
    requires Enabled(w, a)
    ensures Leads(w, [a], Do(w, a))
  {
    assert [a][1..] == [];
  }

  lemma TwoLead(w: World, a: Action, b: Action)
    requires Enabled(w, a) && Enabled(Do(w, a), b)
    ensures Leads(w, [a, b], Do(Do(w, a), b))
  {
    OneLeads(w, a);
    OneLeads(Do(w, a), b);
    LeadsOn(w, [a], Do(w, a), [b], Do(Do(w, a), b));
    assert [a] + [b] == [a, b];
  }

  /** The account is active and verified, and this is its password. */
  predicate LogsIn(w: World, user: string, password: Secret) {
    user in w.users && w.users[user].active && w.users[user].verified && w.users[user].password == password
  }

  /** A login checks the password, and gets as far as inserting exactly when it is right. */
  lemma LoginChecks(w: World, c: nat, user: string, password: Secret) returns (v: World)
    requires c !in w.calls
    ensures Leads(w, [BeginLogin(c, user, password), CheckPassword(c)], v)
    ensures v == w.(calls := if LogsIn(w, user, password)
                             then w.calls[c := LoginChecked(user, Origin(w.clock + 1, password))] else w.calls,
                    clock := w.clock + 2)
  {
    var u := Do(w, BeginLogin(c, user, password));
    v := Do(u, CheckPassword(c));
    TwoLead(w, BeginLogin(c, user, password), CheckPassword(c));
    assert u.calls - {c} == w.calls;
    assert u.calls[c := LoginChecked(user, Origin(w.clock + 1, password))]
        == w.calls[c := LoginChecked(user, Origin(w.clock + 1, password))];
  }

  /** With the right password a login adds one live token. */
  lemma LoginAlone(w: World, c: nat, user: string, password: Secret, id: nat) returns (v: World)
    requires c !in w.calls && id !in w.usedIds && LogsIn(w, user, password)
    ensures Leads(w, [BeginLogin(c, user, password), CheckPassword(c)] + [InsertSession(c, id)], v)
    ensures v.tokens == w.tokens[id := Token(user, false, None, Origin(w.clock + 1, password), w.clock + 2)]
    ensures v.users == w.users && v.mails == w.mails && v.calls == w.calls
  {
    var u := LoginChecks(w, c, user, password);
    v := Do(u, InsertSession(c, id));
    OneLeads(u, InsertSession(c, id));
    LeadsOn(w, [BeginLogin(c, user, password), CheckPassword(c)], u, [InsertSession(c, id)], v);
    assert v.calls == w.calls;
  }

  /** A refresh of a token that nobody holds consumes it exactly while it is live. */
  lemma RefreshConsumes(w: World, c: nat, raw: nat) returns (v: World)
    requires c !in w.calls && TokenFree(w, raw)
    ensures Leads(w, [BeginRefresh(c, raw), ConsumeToken(c)], v)
    ensures v == w.(calls := if raw in w.tokens && !w.tokens[raw].revoked then w.calls[c := RefreshConsumed(raw)]
                             else w.calls, clock := w.clock + 2)
  {
    var u := Do(w, BeginRefresh(c, raw));
    assert TokenFree(u, raw);
    v := Do(u, ConsumeToken(c));
    TwoLead(w, BeginRefresh(c, raw), ConsumeToken(c));
    assert u.calls - {c} == w.calls;
    assert u.calls[c := RefreshConsumed(raw)] == w.calls[c := RefreshConsumed(raw)];
  }

  /** Once consumed, the token of an active and verified holder is exchanged for one of the same login. */
  lemma RefreshExchanges(w: World, c: nat, id: nat) returns (v: World)
    requires c in w.calls && w.calls[c].RefreshConsumed? && w.calls[c].raw in w.tokens && id !in w.usedIds
    requires var user := w.tokens[w.calls[c].raw].user;
             user in w.users && w.users[user].active && w.users[user].verified
    ensures Leads(w, [CheckHolder(c), InsertSuccessor(c, id)] + [CommitRefresh(c)], v)
    ensures var raw, parent := w.calls[c].raw, w.tokens[w.calls[c].raw];
            v.tokens == w.tokens[raw := parent.(revoked := true)]
                                [id := Token(parent.user, false, Some(raw), parent.origin, w.clock + 2)]
    ensures v.users == w.users && v.mails == w.mails && v.calls == w.calls - {c}
  {
    var raw := w.calls[c].raw;
    var b := Do(Do(w, CheckHolder(c)), InsertSuccessor(c, id));
    assert b.calls[c] == RefreshInserted(raw, id) && b.tokens == w.tokens;
    TwoLead(w, CheckHolder(c), InsertSuccessor(c, id));
    v := Do(b, CommitRefresh(c));
    OneLeads(b, CommitRefresh(c));
    LeadsOn(w, [CheckHolder(c), InsertSuccessor(c, id)], b, [CommitRefresh(c)], v);
    assert v.calls == w.calls - {c};
    assert Revoked(w.tokens, {raw}) == w.tokens[raw := w.tokens[raw].(revoked := true)];
  }

  lemma RefreshAlone(w: World, c: nat, raw: nat, id: nat) returns (v: World)
    requires c !in w.calls && TokenFree(w, raw) && id !in w.usedIds
    requires raw in w.tokens && !w.tokens[raw].revoked
    requires w.tokens[raw].user in w.users && w.users[w.tokens[raw].user].active && w.users[w.tokens[raw].user].verified
    ensures Leads(w, [BeginRefresh(c, raw), ConsumeToken(c)]
                     + ([CheckHolder(c), InsertSuccessor(c, id)] + [CommitRefresh(c)]), v)
    ensures v.tokens == w.tokens[raw := w.tokens[raw].(revoked := true)]
                                [id := Token(w.tokens[raw].user, false, Some(raw), w.tokens[raw].origin, w.clock + 4)]
    ensures v.users == w.users && v.mails == w.mails && v.calls == w.calls
  {
    var u := RefreshConsumes(w, c, raw);
    v := RefreshExchanges(u, c, id);
    LeadsOn(w, [BeginRefresh(c, raw), ConsumeToken(c)], u,
            [CheckHolder(c), InsertSuccessor(c, id)] + [CommitRefresh(c)], v);
    assert v.calls == w.calls;
  }

  /** A reset whose mailed token is unused, up to its revoking statement. */
  lemma ResetStarts(w: World, c: nat, mail: nat, password: Secret) returns (v: World)
    requires c !in w.calls && MailFree(w, mail) && mail in w.mails && !w.mails[mail].used
    ensures Leads(w, [BeginReset(c, mail, password), ConsumeMail(c)] + [UpdatePassword(c), StartRevoking(c)], v)
    ensures c in v.calls && v.calls == w.calls[c := v.calls[c]] && v.clock == w.clock + 4
    ensures var user := w.mails[mail].user;
            v.calls[c] == ResetRevoking(mail, password, user in w.users && w.users[user].active, w.clock + 3,
                                        set t | t in w.tokens && w.tokens[t].user == user && !w.tokens[t].revoked, {})
    ensures v.users == w.users && v.tokens == w.tokens && v.mails == w.mails
  {
    var a := Do(w, BeginReset(c, mail, password));
    assert MailFree(a, mail);
    var b := Do(a, ConsumeMail(c));
    TwoLead(w, BeginReset(c, mail, password), ConsumeMail(c));
    assert b.calls[c] == ResetConsumed(mail, password) && b.mails == w.mails && b.tokens == w.tokens;
    v := ResetUpdates(b, c);
    LeadsOn(w, [BeginReset(c, mail, password), ConsumeMail(c)], b, [UpdatePassword(c), StartRevoking(c)], v);
  }

  lemma ResetUpdates(w: World, c: nat) returns (v: World)
    requires c in w.calls && w.calls[c].ResetConsumed? && w.calls[c].mail in w.mails
    ensures Leads(w, [UpdatePassword(c), StartRevoking(c)], v)
    ensures c in v.calls && v.calls == w.calls[c := v.calls[c]] && v.clock == w.clock + 2
    ensures var p, user := w.calls[c], w.mails[w.calls[c].mail].user;
            v.calls[c] == ResetRevoking(p.mail, p.password, user in w.users && w.users[user].active, w.clock + 1,
                                        set t | t in w.tokens && w.tokens[t].user == user && !w.tokens[t].revoked, {})
    ensures v.users == w.users && v.tokens == w.tokens && v.mails == w.mails
  {
    var u := Do(w, UpdatePassword(c));
    v := Do(u, StartRevoking(c));
    TwoLead(w, UpdatePassword(c), StartRevoking(c));
    assert LiveTokensOf(u, w.mails[w.calls[c].mail].user)
        == set t | t in w.tokens && w.tokens[t].user == w.mails[w.calls[c].mail].user && !w.tokens[t].revoked;
  }

  lemma RevokeOne(w: World, c: nat, id: nat) returns (v: World)
    requires c in w.calls && w.calls[c].ResetRevoking? && id in w.calls[c].todo && Live(w, id) && TokenFree(w, id)
    ensures Leads(w, [RevokeRow(c, id)], v)
    ensures var p := w.calls[c]; v.calls == w.calls[c := p.(todo := p.todo - {id}, done := p.done + {id})]
    ensures v.users == w.users && v.tokens == w.tokens && v.mails == w.mails
  {
    v := Do(w, RevokeRow(c, id));
    OneLeads(w, RevokeRow(c, id));
  }

  /** The rows still to visit are live, and nobody holds them. */
  ghost predicate RowsFree(w: World, c: nat)
    requires c in w.calls && w.calls[c].ResetRevoking?
  {
    forall id :: id in w.calls[c].todo ==> Live(w, id) && TokenFree(w, id)
  }

  lemma StillFree(w: World, u: World, c: nat, id: nat)
    requires c in w.calls && w.calls[c].ResetRevoking? && RowsFree(w, c) && id in w.calls[c].todo
    requires u.calls == w.calls[c := w.calls[c].(todo := w.calls[c].todo - {id}, done := w.calls[c].done + {id})]
    requires u.tokens == w.tokens
    ensures RowsFree(u, c)
  {
    forall t | t in u.calls[c].todo ensures Live(u, t) && TokenFree(u, t) {
      assert Live(w, t) && TokenFree(w, t) && t != id;
      forall d | d in u.calls ensures !LocksToken(u.calls[d], t) {
        assert !LocksToken(w.calls[d], t);
      }
    }
  }

  lemma AllVisited(calls: map<nat, Call>, next: map<nat, Call>, last: map<nat, Call>, c: nat, id: nat)
    requires c in calls && calls[c].ResetRevoking? && id in calls[c].todo
    requires next == calls[c := calls[c].(todo := calls[c].todo - {id}, done := calls[c].done + {id})]
    requires last == next[c := next[c].(todo := {}, done := next[c].done + next[c].todo)]
    ensures last == calls[c := calls[c].(todo := {}, done := calls[c].done + calls[c].todo)]
  {
    assert calls[c].done + {id} + (calls[c].todo - {id}) == calls[c].done + calls[c].todo;
  }

  /** The revoking statement visits every row it found. */
  lemma {:induction false} RevokeAll(w: World, c: nat) returns (actions: seq<Action>, v: World)
    requires c in w.calls && w.calls[c].ResetRevoking? && RowsFree(w, c)
    ensures Leads(w, actions, v)
    ensures var p := w.calls[c]; v.calls == w.calls[c := p.(todo := {}, done := p.done + p.todo)]
    ensures v.users == w.users && v.tokens == w.tokens && v.mails == w.mails
    decreases |w.calls[c].todo|
  {
    var p := w.calls[c];
    if p.todo == {} {
      actions, v := [], w;
      assert p.done + p.todo == p.done;
      assert w.calls[c := p] == w.calls;
    } else {
      var id :| id in p.todo;
      assert Live(w, id) && TokenFree(w, id);
      var u := RevokeOne(w, c, id);
      StillFree(w, u, c, id);
      var rest, last := RevokeAll(u, c);
      LeadsOn(w, [RevokeRow(c, id)], u, rest, last);
      AllVisited(w.calls, u.calls, last.calls, c, id);
      actions, v := [RevokeRow(c, id)] + rest, last;
    }
  }

  /** A reset that nothing disturbs revokes every live token of the user and no other, uses up the mailed
      token, and sets the password of an active account. */
  lemma ResetAlone(w: World, c: nat, mail: nat, password: Secret) returns (actions: seq<Action>, v: World)
    requires c !in w.calls && MailFree(w, mail) && mail in w.mails && !w.mails[mail].used
    requires w.mails[mail].user in w.users
    requires forall t :: t in w.tokens && w.tokens[t].user == w.mails[mail].user ==> TokenFree(w, t)
    ensures Leads(w, actions, v)
    ensures v.tokens.Keys == w.tokens.Keys
    ensures var user := w.mails[mail].user;
            && (forall t :: t in w.tokens ==>
                  v.tokens[t] == if w.tokens[t].user == user then w.tokens[t].(revoked := true) else w.tokens[t])
            && v.users == (if w.users[user].active
                           then w.users[user := w.users[user].(password := password)] else w.users)
            && v.mails == w.mails[mail := Mail(user, true)]
    ensures v.calls == w.calls
  {
    var a := ResetStarts(w, c, mail, password);
    forall id | id in a.calls[c].todo ensures Live(a, id) && TokenFree(a, id) {
      assert TokenFree(w, id);
    }
    assert RowsFree(a, c);
    var rows, b := RevokeAll(a, c);
    v := Do(b, CommitReset(c));
    OneLeads(b, CommitReset(c));
    LeadsOn(a, rows, b, [CommitReset(c)], v);
    LeadsOn(w, [BeginReset(c, mail, password), ConsumeMail(c)] + [UpdatePassword(c), StartRevoking(c)], a,
            rows + [CommitReset(c)], v);
    actions := [BeginReset(c, mail, password), ConsumeMail(c)] + [UpdatePassword(c), StartRevoking(c)]
               + (rows + [CommitReset(c)]);
    assert v.calls == w.calls;
  }

  // ----- the mailed token -----

  lemma UsedStaysUsed(w: World, a: Action, mail: nat)
    requires Enabled(w, a) && mail in w.mails && w.mails[mail].used
    ensures mail in Do(w, a).mails && Do(w, a).mails[mail].used
  {
    var v := Do(w, a);
    assert mail in v.mails && v.mails[mail].used;
  }

  lemma {:induction false} UsedForEver(h: History, j: nat, k: nat, mail: nat)
    requires h.IsRun() && j <= k < |h.worlds| && mail in h.worlds[j].mails && h.worlds[j].mails[mail].used
    ensures mail in h.worlds[k].mails && h.worlds[k].mails[mail].used
    decreases k
  {
    if j < k {
      UsedForEver(h, j, k - 1, mail);
      assert h.Follows(k - 1);
      UsedStaysUsed(h.worlds[k - 1], h.actions[k - 1], mail);
    }
  }

  lemma CommitUses(w: World, a: Action)
    requires Inv(w) && Enabled(w, a) && a.CommitReset?
    ensures var mail := w.calls[a.call].mail;
            mail in w.mails && !w.mails[mail].used && mail in Do(w, a).mails && Do(w, a).mails[mail].used
  {
    assert CallOk(w, a.call) && LocksMail(w.calls[a.call], w.calls[a.call].mail);
    var v := Do(w, a);
    assert v.mails[w.calls[a.call].mail].used;
  }

  /** In every interleaving at most one reset commits on one mailed token. */
  lemma MailUsedOnce(h: History, j: nat, k: nat)
    requires h.IsRun() && j < k < |h.actions| && h.actions[j].CommitReset? && h.actions[k].CommitReset?
    requires h.Follows(j) && h.Follows(k)
    ensures h.worlds[j].calls[h.actions[j].call].mail != h.worlds[k].calls[h.actions[k].call].mail
  {
    var first, second := h.worlds[j], h.worlds[k];
    RunKeepsInv(h, j);
    RunKeepsInv(h, k);
    CommitUses(first, h.actions[j]);
    CommitUses(second, h.actions[k]);
    UsedForEver(h, j + 1, k, first.calls[h.actions[j].call].mail);
  }
}
