/**
 What a password reset ends, when logins and refreshes may overlap it.

 The revoking statement sees the tokens committed before it started. A session committed between that
 statement and the commit of the reset survives it, and so does a login that checked the old password
 and has not inserted its token yet. Nothing else does.
 */
module SessionReset {
  import opened Wrappers
  import opened Sessions
  import opened SessionSafety
  import Sets

  // ----- which tokens a reset revokes -----

  function ResetUser(w: World, a: Action): string
    requires Enabled(w, a) && a.CommitReset?
  {
    w.mails[w.calls[a.call].mail].user
  }

  /** A live token of the user survives the commit of a reset exactly when it was committed after the
      revoking statement had started. */
  lemma SurvivesIff(w: World, a: Action, t: nat)
    requires Inv(w) && Enabled(w, a) && a.CommitReset?
    requires t in w.tokens && w.tokens[t].user == ResetUser(w, a)
    ensures Live(Do(w, a), t) <==> Live(w, t) && w.calls[a.call].since <= w.tokens[t].committedAt
  {
    var p := w.calls[a.call];
    assert CallOk(w, a.call) && LocksMail(p, p.mail);
    assert t in p.done ==> Before(w, t, ResetUser(w, a), p.since);
    var v := Do(w, a);
    assert Live(v, t) <==> Live(w, t) && t !in p.done;
  }

  // ----- what is left of the old password -----

  /** The user has no live token and no login between its password check and its insertion. */
  ghost predicate Clean(w: World, user: string) {
    && LiveTokensOf(w, user) == {}
    && forall c :: c in w.calls ==> !CheckedLogin(w.calls[c], user)
  }

  predicate CheckedLogin(call: Call, user: string) {
    call.LoginChecked? && call.user == user
  }

  /** When the reset commits, no session of the user was committed since the revoking statement started,
      or all of those are revoked again; and no login of the user is half-way. */
  lemma CleanIff(w: World, a: Action)
    requires Inv(w) && Enabled(w, a) && a.CommitReset?
    ensures Clean(Do(w, a), ResetUser(w, a)) <==>
              && (forall t :: t in LiveTokensOf(w, ResetUser(w, a)) ==> w.tokens[t].committedAt < w.calls[a.call].since)
              && (forall c :: c in w.calls ==> !CheckedLogin(w.calls[c], ResetUser(w, a)))
  {
    var v, user := Do(w, a), ResetUser(w, a);
    CommitResetRest(w, a);
    forall t | t in w.tokens && w.tokens[t].user == user
      ensures t in LiveTokensOf(v, user) <==>
                t in LiveTokensOf(w, user) && w.calls[a.call].since <= w.tokens[t].committedAt
    {
      SurvivesIff(w, a, t);
    }
    assert forall c :: c in w.calls && c != a.call ==> c in v.calls;
  }

  lemma CommitResetRest(w: World, a: Action)
    requires Enabled(w, a) && a.CommitReset?
    ensures var v := Do(w, a);
            && v.tokens.Keys == w.tokens.Keys && v.calls == w.calls - {a.call}
            && forall t :: t in w.tokens ==> v.tokens[t].user == w.tokens[t].user
  {
  }

  /** The user and the password check of a token that exists after a step were those of a token before it,
      live if this one is, or of a login about to insert its token. */
  ghost predicate Inherits(w: World, x: Token) {
    || (exists t :: t in w.tokens && SameSession(w.tokens[t], x))
    || (exists c :: c in w.calls && w.calls[c].LoginChecked?
                    && w.calls[c].user == x.user && w.calls[c].origin == x.origin)
  }

  predicate SameSession(y: Token, x: Token) {
    y.user == x.user && y.origin == x.origin && (!x.revoked ==> !y.revoked)
  }

  lemma TokenInherits(w: World, a: Action, t: nat)
    requires Inv(w) && Enabled(w, a) && t in Do(w, a).tokens
    ensures Inherits(w, Do(w, a).tokens[t])
  {
    var v := Do(w, a);
    if !WritesRows(a) {
      QuietRows(w, a);
      assert SameSession(w.tokens[t], v.tokens[t]);
    } else if a.InsertSession? && t == a.id {
      assert w.calls[a.call].LoginChecked?;
    } else if a.CommitRefresh? && t == w.calls[a.call].id {
      var p := w.calls[a.call];
      assert CallOk(w, a.call) && LocksToken(p, p.raw);
      assert SameSession(w.tokens[p.raw], v.tokens[t]);
    } else {
      assert SameSession(w.tokens[t], v.tokens[t]);
    }
  }

  predicate NewOrigin(w: World, user: string, origin: Origin) {
    origin.at == w.clock && MayHoldSession(w, user) && w.users[user].password == origin.password
  }

  lemma LoginInherits(w: World, a: Action, c: nat)
    requires Enabled(w, a) && c in Do(w, a).calls && Do(w, a).calls[c].LoginChecked?
    ensures || (c in w.calls && w.calls[c] == Do(w, a).calls[c])
            || NewOrigin(w, Do(w, a).calls[c].user, Do(w, a).calls[c].origin)
  {
    OnlyActorMoves(w, a);
  }

  /** Every session of the user, live or about to be, goes back to a password check at step `from` or later. */
  ghost predicate OnlySince(w: World, user: string, from: nat) {
    && (forall t :: t in LiveTokensOf(w, user) ==> from <= w.tokens[t].origin.at)
    && (forall c :: c in w.calls && CheckedLogin(w.calls[c], user) ==> from <= w.calls[c].origin.at)
  }

  lemma InheritedSince(w: World, x: Token, from: nat)
    requires OnlySince(w, x.user, from) && Inherits(w, x) && !x.revoked
    ensures from <= x.origin.at
  {
    if t :| t in w.tokens && SameSession(w.tokens[t], x) {
      assert t in LiveTokensOf(w, x.user);
    } else {
      var c :| c in w.calls && w.calls[c].LoginChecked? && w.calls[c].user == x.user && w.calls[c].origin == x.origin;
      assert CheckedLogin(w.calls[c], x.user);
    }
  }

  lemma StepKeepsOnlySince(w: World, a: Action, user: string, from: nat)
    requires Inv(w) && Enabled(w, a) && OnlySince(w, user, from) && from <= w.clock
    ensures OnlySince(Do(w, a), user, from)
  {
    var v := Do(w, a);
    forall t | t in LiveTokensOf(v, user) ensures from <= v.tokens[t].origin.at {
      TokenInherits(w, a, t);
      InheritedSince(w, v.tokens[t], from);
    }
    forall c | c in v.calls && CheckedLogin(v.calls[c], user) ensures from <= v.calls[c].origin.at {
      LoginInherits(w, a, c);
    }
    assert OnlySince(v, user, from);
  }

  lemma {:induction false} RunKeepsOnlySince(h: History, j: nat, k: nat, user: string, from: nat)
    requires h.IsRun() && j <= k < |h.worlds| && from <= j && OnlySince(h.worlds[j], user, from)
    ensures OnlySince(h.worlds[k], user, from)
    decreases k
  {
    if j < k {
      RunKeepsOnlySince(h, j, k - 1, user, from);
      RunKeepsInv(h, k - 1);
      assert h.Follows(k - 1);
      StepKeepsOnlySince(h.worlds[k - 1], h.actions[k - 1], user, from);
    }
  }

  // ----- exactly when a reset ends the old sessions for good -----

  /** `g` is a run that begins with the first `n` steps of `h`. */
  ghost predicate Continues(g: History, h: History, n: nat) {
    && g.IsRun() && h.IsRun() && n <= |h.actions| && n <= |g.actions|
    && g.worlds[..n + 1] == h.worlds[..n + 1] && g.actions[..n] == h.actions[..n]
  }

  ghost predicate NoSessionFromBefore(w: World, user: string, from: nat) {
    forall t :: t in LiveTokensOf(w, user) ==> from <= w.tokens[t].origin.at
  }

  /** However the run goes on after its first `n` steps, no session of the user is ever live that goes back
      to a password check before step `n`. */
  ghost predicate EndsOldSessions(h: History, n: nat, user: string) {
    forall g: History, k: nat :: Continues(g, h, n) && n <= k < |g.worlds| ==> NoSessionFromBefore(g.worlds[k], user, n)
  }

  lemma CleanEndsOldSessions(h: History, n: nat, user: string)
    requires h.IsRun() && n < |h.worlds| && Clean(h.worlds[n], user)
    ensures EndsOldSessions(h, n, user)
  {
    forall g: History, k: nat | Continues(g, h, n) && n <= k < |g.worlds|
      ensures NoSessionFromBefore(g.worlds[k], user, n)
    {
      assert g.worlds[n] == g.worlds[..n + 1][n] == h.worlds[..n + 1][n] == h.worlds[n];
      assert OnlySince(g.worlds[n], user, n);
      RunKeepsOnlySince(g, n, k, user, n);
    }
  }

  function Prefix(h: History, n: nat): History
    requires |h.worlds| == |h.actions| + 1 && n <= |h.actions|
  {
    History(h.worlds[..n + 1], h.actions[..n])
  }

  lemma PrefixContinues(h: History, n: nat)
    requires h.IsRun() && n <= |h.actions|
    ensures Continues(Prefix(h, n), h, n)
  {
    var g := Prefix(h, n);
    forall k | 0 <= k < |g.actions| ensures g.Follows(k) {
      assert h.Follows(k);
    }
  }

  lemma OneMoreStep(h: History, n: nat, a: Action) returns (g: History)
    requires h.IsRun() && n < |h.worlds| && Enabled(h.worlds[n], a)
    ensures Continues(g, h, n) && |g.worlds| == n + 2 && g.worlds[n + 1] == Do(h.worlds[n], a)
  {
    var p := Prefix(h, n);
    PrefixContinues(h, n);
    g := History(p.worlds + [Do(h.worlds[n], a)], p.actions + [a]);
    forall k | 0 <= k < |g.actions| ensures g.Follows(k) {
      if k < n { assert p.Follows(k); }
    }
    assert g.worlds[..n + 1] == p.worlds && g.actions[..n] == p.actions;
  }

  /** A login that has checked the password inserts its token. */
  lemma HalfWayLoginInserts(h: History, n: nat, c: nat) returns (g: History)
    requires h.IsRun() && n < |h.worlds| && c in h.worlds[n].calls && h.worlds[n].calls[c].LoginChecked?
    ensures Continues(g, h, n) && |g.worlds| == n + 2
    ensures !NoSessionFromBefore(g.worlds[n + 1], h.worlds[n].calls[c].user, n)
  {
    var w := h.worlds[n];
    RunKeepsInv(h, n);
    assert CallOk(w, c);
    var id := FreshId(w.usedIds);
    g := OneMoreStep(h, n, InsertSession(c, id));
    assert id in LiveTokensOf(g.worlds[n + 1], w.calls[c].user);
  }

  /** If a live token or a half-way login is left, a session from before is live, at once or one step later. */
  lemma UncleanLeavesSession(h: History, n: nat, user: string)
    requires h.IsRun() && n < |h.worlds|
    ensures EndsOldSessions(h, n, user) ==> Clean(h.worlds[n], user)
  {
    var w := h.worlds[n];
    RunKeepsInv(h, n);
    PrefixContinues(h, n);
    assert Prefix(h, n).worlds[n] == w;
    assert EndsOldSessions(h, n, user) ==> NoSessionFromBefore(w, user, n);
    forall t | t in LiveTokensOf(w, user) ensures !EndsOldSessions(h, n, user) {
      assert TokenOk(w, t);
    }
    forall c | c in w.calls && CheckedLogin(w.calls[c], user) ensures !EndsOldSessions(h, n, user) {
      var g := HalfWayLoginInserts(h, n, c);
      assert !NoSessionFromBefore(g.worlds[n + 1], user, n);
    }
  }

  lemma FreshId(used: set<nat>) returns (id: nat)
    ensures id !in used
  {
    if used == {} {
      id := 0;
    } else {
      var m := Sets.Greatest(used);
      id := m + 1;
    }
  }

  /** In every run: a reset ends all older sessions of its user for good exactly when, at its commit, every
      live token of the user was committed before its revoking statement and no login of the user is
      between its password check and its insertion. */
  lemma ResetEndsOldSessionsIff(h: History, n: nat)
    requires h.IsRun() && n < |h.actions| && h.actions[n].CommitReset? && h.Follows(n)
    ensures var w, user := h.worlds[n], ResetUser(h.worlds[n], h.actions[n]);
            EndsOldSessions(h, n + 1, user) <==>
              && (forall t :: t in LiveTokensOf(w, user) ==> w.tokens[t].committedAt < w.calls[h.actions[n].call].since)
              && (forall c :: c in w.calls ==> !CheckedLogin(w.calls[c], user))
  {
    var user := ResetUser(h.worlds[n], h.actions[n]);
    RunKeepsInv(h, n);
    CleanIff(h.worlds[n], h.actions[n]);
    if Clean(h.worlds[n + 1], user) { CleanEndsOldSessions(h, n + 1, user); }
    if EndsOldSessions(h, n + 1, user) { UncleanLeavesSession(h, n + 1, user); }
  }

  // ----- where a session comes from -----

  /** At step `origin.at` of the run the password was the user's, and the account active and verified. */
  ghost predicate Honest(h: History, user: string, origin: Origin)
    requires h.IsRun()
  {
    && origin.at < |h.actions|
    && MayHoldSession(h.worlds[origin.at], user)
    && h.worlds[origin.at].users[user].password == origin.password
  }

  ghost predicate AllHonest(h: History, k: nat)
    requires h.IsRun() && k < |h.worlds|
  {
    && (forall t :: t in h.worlds[k].tokens ==> Honest(h, h.worlds[k].tokens[t].user, h.worlds[k].tokens[t].origin))
    && (forall c :: c in h.worlds[k].calls && h.worlds[k].calls[c].LoginChecked? ==>
          Honest(h, h.worlds[k].calls[c].user, h.worlds[k].calls[c].origin))
  }

  lemma InheritedHonest(h: History, k: nat, x: Token)
    requires h.IsRun() && k < |h.worlds| && AllHonest(h, k) && Inherits(h.worlds[k], x)
    ensures Honest(h, x.user, x.origin)
  {
    var w := h.worlds[k];
    if t :| t in w.tokens && SameSession(w.tokens[t], x) {
      assert Honest(h, w.tokens[t].user, w.tokens[t].origin);
    }
  }

  /** In every run each session goes back to a step at which its user was active and verified and had the
      password that was given. */
  lemma {:induction false} SessionsAreHonest(h: History, k: nat)
    requires h.IsRun() && k < |h.worlds|
    ensures AllHonest(h, k)
  {
    if k == 0 {
      assert h.worlds[0] == EMPTY;
    } else {
      SessionsAreHonest(h, k - 1);
      RunKeepsInv(h, k - 1);
      assert h.Follows(k - 1);
      var w, a, v := h.worlds[k - 1], h.actions[k - 1], h.worlds[k];
      forall t | t in v.tokens ensures Honest(h, v.tokens[t].user, v.tokens[t].origin) {
        TokenInherits(w, a, t);
        InheritedHonest(h, k - 1, v.tokens[t]);
      }
      forall c | c in v.calls && v.calls[c].LoginChecked? ensures Honest(h, v.calls[c].user, v.calls[c].origin) {
        LoginInherits(w, a, c);
      }
    }
  }

  /** In every interleaving a refresh token has at most one successor, of the same user and login, committed
      later, and is revoked once it has one. */
  lemma SuccessorsAreUnique(h: History, k: nat, t: nat, u: nat)
    requires h.IsRun() && k < |h.worlds| && t in h.worlds[k].tokens && u in h.worlds[k].tokens
    requires h.worlds[k].tokens[t].parent.Some? && h.worlds[k].tokens[t].parent == h.worlds[k].tokens[u].parent
    ensures t == u
    ensures var tokens, p := h.worlds[k].tokens, h.worlds[k].tokens[t].parent.value;
            p in tokens && tokens[p].revoked && tokens[p].user == tokens[t].user && tokens[p].origin == tokens[t].origin
            && tokens[p].committedAt < tokens[t].committedAt
  {
    RunKeepsInv(h, k);
    assert TokenOk(h.worlds[k], t);
  }
}
