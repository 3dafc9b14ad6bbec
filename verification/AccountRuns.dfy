/** What every run of the account calls keeps: rotation, revocation, single use. */
module AccountRuns {
  import opened Wrappers
  import opened Accounts

  // ----- nothing is written twice -----

  predicate WrittenOnce(before: Option<Time>, after: Option<Time>) {
    before.Some? ==> after == before
  }

  predicate RefreshEvolves(a: RefreshToken, b: RefreshToken) {
    a.user == b.user && a.expiresAt == b.expiresAt && WrittenOnce(a.revokedAt, b.revokedAt)
  }

  predicate ActionEvolves(a: ActionToken, b: ActionToken) {
    a.user == b.user && a.purpose == b.purpose && a.expiresAt == b.expiresAt && WrittenOnce(a.usedAt, b.usedAt)
  }

  ghost predicate Evolves(a: Db, b: Db) {
    && |a.refresh| <= |b.refresh| && |a.actions| <= |b.actions|
    && (forall t :: 0 <= t < |a.refresh| ==> RefreshEvolves(a.refresh[t], b.refresh[t]))
    && (forall t :: 0 <= t < |a.actions| ==> ActionEvolves(a.actions[t], b.actions[t]))
    && (forall u :: u in a.users ==> u in b.users && WrittenOnce(a.users[u].verifiedAt, b.users[u].verifiedAt))
  }

  lemma RefreshTokensEvolve(db: Db, step: Step)
    requires db.Linked()
    ensures var next := Exec(db, step).db;
            && |db.refresh| <= |next.refresh| <= |db.refresh| + 1
            && (forall t :: 0 <= t < |db.refresh| ==> RefreshEvolves(db.refresh[t], next.refresh[t]))
            && (forall t :: |db.refresh| <= t < |next.refresh| ==> next.refresh[t].user in db.users)
  {
  }

  lemma ActionTokensEvolve(db: Db, step: Step)
    requires db.Linked()
    ensures var next := Exec(db, step).db;
            && |db.actions| <= |next.actions|
            && (forall t :: 0 <= t < |db.actions| ==> ActionEvolves(db.actions[t], next.actions[t]))
            && (forall t :: |db.actions| <= t < |next.actions| ==> next.actions[t].user in next.users)
  {
  }

  lemma UsersEvolve(db: Db, step: Step)
    requires db.Linked()
    ensures var next := Exec(db, step).db;
            forall u :: u in db.users ==>
              u in next.users && WrittenOnce(db.users[u].verifiedAt, next.users[u].verifiedAt)
  {
  }

  lemma StepEvolves(db: Db, step: Step)
    requires db.Linked()
    ensures Exec(db, step).db.Linked() && Evolves(db, Exec(db, step).db)
    ensures |Exec(db, step).db.refresh| <= |db.refresh| + 1
  {
    RefreshTokensEvolve(db, step);
    ActionTokensEvolve(db, step);
    UsersEvolve(db, step);
    var next := Exec(db, step).db;
    forall t | 0 <= t < |db.refresh| ensures next.refresh[t].user in next.users {
      assert RefreshEvolves(db.refresh[t], next.refresh[t]);
    }
    forall t | 0 <= t < |db.actions| ensures next.actions[t].user in next.users {
      assert ActionEvolves(db.actions[t], next.actions[t]);
    }
  }

  lemma EvolvesTransitive(a: Db, b: Db, c: Db)
    requires Evolves(a, b) && Evolves(b, c)
    ensures Evolves(a, c)
  {
    forall t | 0 <= t < |a.refresh| ensures RefreshEvolves(a.refresh[t], c.refresh[t]) {
      assert RefreshEvolves(a.refresh[t], b.refresh[t]) && RefreshEvolves(b.refresh[t], c.refresh[t]);
    }
    forall t | 0 <= t < |a.actions| ensures ActionEvolves(a.actions[t], c.actions[t]) {
      assert ActionEvolves(a.actions[t], b.actions[t]) && ActionEvolves(b.actions[t], c.actions[t]);
    }
  }

  /** `revoked_at`, `used_at` and `email_verified_at` are written at most once in any run. */
  lemma {:induction false} RunWritesOnce(h: History, j: nat, k: nat)
    requires h.IsRun() && j <= k < |h.worlds|
    ensures h.worlds[j].db.Linked() && Evolves(h.worlds[j].db, h.worlds[k].db)
    decreases k
  {
    if j == k {
      if k == 0 {
        assert h.worlds[0].db == EMPTY;
      } else {
        assert h.Follows(k - 1);
        StepEvolves(h.worlds[k - 1].db, h.steps[k - 1]);
      }
    } else {
      RunWritesOnce(h, j, k - 1);
      assert h.Follows(k - 1);
      StepEvolves(h.worlds[k - 1].db, h.steps[k - 1]);
      EvolvesTransitive(h.worlds[j].db, h.worlds[k - 1].db, h.worlds[k].db);
    }
  }

  /** A refresh that gives no session changed nothing. */
  lemma FailedRefreshChangesNothing(db: Db, raw: int, now: Time, fault: bool)
    requires db.Linked() && !Refresh(db, raw, now, fault).answer.Session?
    ensures Refresh(db, raw, now, fault).db == db
  {
  }

  // ----- rotation -----

  /** Each token has at most one successor, which is newer, belongs to the same user, and exists only
      after the token itself was revoked. */
  ghost predicate Chained(w: World) {
    && |w.parents| == |w.db.refresh|
    && (forall t :: 0 <= t < |w.parents| && w.parents[t].Some? ==> ParentOk(w, t))
    && (forall t, u :: 0 <= t < u < |w.parents| && w.parents[t].Some? ==> w.parents[t] != w.parents[u])
  }

  ghost predicate ParentOk(w: World, t: nat)
    requires |w.parents| == |w.db.refresh| && t < |w.parents| && w.parents[t].Some?
  {
    var p := w.parents[t].value;
    p < t && w.db.refresh[p].revokedAt.Some? && w.db.refresh[p].user == w.db.refresh[t].user
  }

  lemma StepKeepsChains(w: World, step: Step)
    requires w.db.Linked() && Chained(w)
    ensures Chained(Next(w, step))
  {
    var v := Next(w, step);
    StepEvolves(w.db, step);
    var n := |w.db.refresh|;
    assert |v.db.refresh| <= n + 1;
    assert |v.parents| == |v.db.refresh|;
    forall t | 0 <= t < |v.parents| && v.parents[t].Some? ensures ParentOk(v, t) {
      if t < n {
        assert ParentOk(w, t);
        assert RefreshEvolves(w.db.refresh[t], v.db.refresh[t]);
        assert RefreshEvolves(w.db.refresh[w.parents[t].value], v.db.refresh[w.parents[t].value]);
      }
    }
    if Exchanges(w.db, step) {
      forall t | 0 <= t < n && w.parents[t].Some? ensures w.parents[t] != Some(step.raw) {
        assert ParentOk(w, t);
      }
    }
  }

  lemma {:induction false} RunKeepsChains(h: History, k: nat)
    requires h.IsRun() && k < |h.worlds|
    ensures h.worlds[k].db.Linked() && Chained(h.worlds[k])
  {
    RunWritesOnce(h, k, k);
    if k > 0 {
      RunKeepsChains(h, k - 1);
      assert h.Follows(k - 1);
      StepKeepsChains(h.worlds[k - 1], h.steps[k - 1]);
    }
  }

  lemma ExchangedOnce(db: Db, step: Step)
    requires db.Linked() && Exchanges(db, step)
    ensures 0 <= step.raw < |db.refresh| && Refreshable(db, step.raw, step.now)
    ensures step.raw < |Exec(db, step).db.refresh| && Exec(db, step).db.refresh[step.raw].revokedAt.Some?
  {
  }

  lemma RevokedIsRefused(db: Db, step: Step)
    requires db.Linked() && step.DoRefresh? && 0 <= step.raw < |db.refresh| && db.refresh[step.raw].revokedAt.Some?
    ensures !Exchanges(db, step)
  {
  }

  /** No refresh token is accepted twice, and after a logout or a reset not even once. */
  lemma AcceptedAtMostOnce(h: History, j: nat, k: nat)
    requires h.IsRun() && j < k < |h.steps|
    requires h.Follows(j) && h.Follows(k)
    requires Exchanges(h.worlds[j].db, h.steps[j]) && h.steps[k].DoRefresh? && h.steps[k].raw == h.steps[j].raw
    ensures var token := h.worlds[j].db.refresh[h.steps[j].raw];
            token.revokedAt.None? && h.steps[j].now < token.expiresAt
    ensures !Exchanges(h.worlds[k].db, h.steps[k])
  {
    var raw := h.steps[j].raw;
    ExchangedOnce(h.worlds[j].db, h.steps[j]);
    RunWritesOnce(h, j + 1, k);
    assert RefreshEvolves(h.worlds[j + 1].db.refresh[raw], h.worlds[k].db.refresh[raw]);
    RevokedIsRefused(h.worlds[k].db, h.steps[k]);
  }

  /** The login a token goes back to. */
  ghost function Root(w: World, t: nat): (r: nat)
    requires Chained(w) && t < |w.parents|
    ensures r <= t
    decreases t
  {
    if w.parents[t].None? then t else assert ParentOk(w, t); Root(w, w.parents[t].value)
  }

  ghost predicate Descends(w: World, t: nat, a: nat)
    requires Chained(w) && t < |w.parents|
    decreases t
  {
    t == a || (w.parents[t].Some? && (assert ParentOk(w, t); Descends(w, w.parents[t].value, a)))
  }

  lemma {:induction false} RootIsOlder(w: World, t: nat)
    requires Chained(w) && t < |w.parents|
    ensures w.parents[Root(w, t)].None?
    ensures w.db.refresh[Root(w, t)].user == w.db.refresh[t].user
    decreases t
  {
    if w.parents[t].Some? {
      assert ParentOk(w, t);
      RootIsOlder(w, w.parents[t].value);
    }
  }

  lemma {:induction false} ChildOnTheWay(w: World, t: nat, a: nat) returns (q: nat)
    requires Chained(w) && t < |w.parents| && t != a && Descends(w, t, a)
    ensures q <= t && w.parents[q] == Some(a)
    decreases t
  {
    assert ParentOk(w, t);
    if w.parents[t].value == a {
      q := t;
    } else {
      q := ChildOnTheWay(w, w.parents[t].value, a);
    }
  }

  /** Two tokens that go back to the same login are on one line. */
  lemma {:induction false} ChainIsALine(w: World, a: nat, b: nat)
    requires Chained(w) && a < b < |w.parents| && Root(w, a) == Root(w, b)
    ensures Descends(w, b, a)
    decreases b
  {
    RootIsOlder(w, a);
    assert w.parents[b].Some?;
    assert ParentOk(w, b);
    var p := w.parents[b].value;
    if p > a {
      ChainIsALine(w, a, p);
    } else if p < a {
      ChainIsALine(w, p, a);
      var q := ChildOnTheWay(w, a, p);
      assert false; // `p` would have the two successors `q` and `b`
    }
  }

  /** In every reachable state a login has at most one live refresh token: the newest of its chain. */
  lemma OnlyNewestIsLive(h: History, k: nat, a: nat, b: nat)
    requires h.IsRun() && k < |h.worlds| && a < b < |h.worlds[k].parents|
    requires Chained(h.worlds[k]) && Root(h.worlds[k], a) == Root(h.worlds[k], b)
    ensures h.worlds[k].db.refresh[a].revokedAt.Some?
  {
    RunKeepsChains(h, k);
    var w := h.worlds[k];
    ChainIsALine(w, a, b);
    var q := ChildOnTheWay(w, b, a);
    assert ParentOk(w, q);
  }

  ghost predicate VerifiedHolders(db: Db)
    requires db.Linked()
  {
    forall t :: 0 <= t < |db.refresh| ==> db.users[db.refresh[t].user].verifiedAt.Some?
  }

  lemma NewHolderIsVerified(db: Db, step: Step)
    requires db.Linked() && |Exec(db, step).db.refresh| > |db.refresh|
    ensures var token := Exec(db, step).db.refresh[|db.refresh|];
            token.user in db.users && MayHoldSession(db.users[token.user])
  {
  }

  lemma StepKeepsVerifiedHolders(db: Db, step: Step)
    requires db.Linked() && VerifiedHolders(db)
    ensures Exec(db, step).db.Linked() && VerifiedHolders(Exec(db, step).db)
  {
    var next := Exec(db, step).db;
    StepEvolves(db, step);
    if |next.refresh| > |db.refresh| {
      NewHolderIsVerified(db, step);
    }
    forall t | 0 <= t < |next.refresh| ensures next.users[next.refresh[t].user].verifiedAt.Some? {
      if t < |db.refresh| {
        assert RefreshEvolves(db.refresh[t], next.refresh[t]);
      }
    }
    assert VerifiedHolders(next);
  }

  /** Only users with a verified e-mail ever hold a refresh token. */
  lemma {:induction false} RunKeepsVerifiedHolders(h: History, k: nat)
    requires h.IsRun() && k < |h.worlds|
    ensures h.worlds[k].db.Linked() && VerifiedHolders(h.worlds[k].db)
  {
    if k == 0 {
      assert h.worlds[0].db == EMPTY;
    } else {
      RunKeepsVerifiedHolders(h, k - 1);
      assert h.Follows(k - 1);
      StepKeepsVerifiedHolders(h.worlds[k - 1].db, h.steps[k - 1]);
    }
  }

  // ----- password reset -----

  predicate Resets(db: Db, step: Step)
    requires db.Linked()
  {
    step.DoReset? && Exec(db, step).answer == Done
  }

  lemma ResetRevokesAll(db: Db, step: Step, t: nat)
    requires db.Linked() && Resets(db, step) && t < |db.refresh| && db.refresh[t].user == db.actions[step.raw].user
    ensures t < |Exec(db, step).db.refresh| && Exec(db, step).db.refresh[t].revokedAt.Some?
  {
  }

  lemma RevokedByReset(h: History, j: nat, k: nat, t: nat)
    requires h.IsRun() && j < k < |h.worlds| && h.Follows(j) && Resets(h.worlds[j].db, h.steps[j])
    requires t < |h.worlds[j].db.refresh|
    requires h.worlds[j].db.refresh[t].user == h.worlds[j].db.actions[h.steps[j].raw].user
    ensures t < |h.worlds[k].db.refresh| && h.worlds[k].db.refresh[t].revokedAt.Some?
  {
    ResetRevokesAll(h.worlds[j].db, h.steps[j], t);
    RunWritesOnce(h, j + 1, k);
    assert RefreshEvolves(h.worlds[j + 1].db.refresh[t], h.worlds[k].db.refresh[t]);
  }

  /** After a password reset no refresh token issued to that user before is ever accepted again. */
  lemma ResetEndsSessions(h: History, j: nat, k: nat)
    requires h.IsRun() && j < k < |h.steps| && h.Follows(j) && h.Follows(k)
    requires Resets(h.worlds[j].db, h.steps[j]) && h.steps[k].DoRefresh?
    requires 0 <= h.steps[k].raw < |h.worlds[j].db.refresh|
    requires h.worlds[j].db.refresh[h.steps[k].raw].user == h.worlds[j].db.actions[h.steps[j].raw].user
    ensures !Exchanges(h.worlds[k].db, h.steps[k])
  {
    RevokedByReset(h, j, k, h.steps[k].raw);
    RevokedIsRefused(h.worlds[k].db, h.steps[k]);
  }

  /** Tokens of `user` from number `from` on go back no further than `from`. */
  ghost predicate StartsAt(w: World, user: string, from: nat)
    requires |w.parents| == |w.db.refresh|
  {
    forall t :: from <= t < |w.parents| && w.db.refresh[t].user == user && w.parents[t].Some? ==>
        w.parents[t].value >= from
  }

  lemma OlderTokensRevoked(h: History, j: nat, k: nat)
    requires h.IsRun() && j < k < |h.worlds| && h.Follows(j) && Resets(h.worlds[j].db, h.steps[j])
    requires |h.worlds[j].db.refresh| <= |h.worlds[k].db.refresh|
    ensures forall t :: 0 <= t < |h.worlds[j].db.refresh|
                        && h.worlds[k].db.refresh[t].user == h.worlds[j].db.actions[h.steps[j].raw].user ==>
              h.worlds[k].db.refresh[t].revokedAt.Some?
  {
    var user := h.worlds[j].db.actions[h.steps[j].raw].user;
    RunWritesOnce(h, j, k);
    forall t | 0 <= t < |h.worlds[j].db.refresh| && h.worlds[k].db.refresh[t].user == user
      ensures h.worlds[k].db.refresh[t].revokedAt.Some?
    {
      assert RefreshEvolves(h.worlds[j].db.refresh[t], h.worlds[k].db.refresh[t]);
      RevokedByReset(h, j, k, t);
    }
  }

  lemma {:induction false} ResetStartsAfresh(h: History, j: nat, k: nat)
    requires h.IsRun() && j < k < |h.worlds| && h.Follows(j) && Resets(h.worlds[j].db, h.steps[j])
    ensures Chained(h.worlds[k])
    ensures StartsAt(h.worlds[k], h.worlds[j].db.actions[h.steps[j].raw].user, |h.worlds[j].db.refresh|)
    decreases k
  {
    RunKeepsChains(h, k);
    var user, from := h.worlds[j].db.actions[h.steps[j].raw].user, |h.worlds[j].db.refresh|;
    if k > j + 1 {
      ResetStartsAfresh(h, j, k - 1);
      RunKeepsChains(h, k - 1);
      assert h.Follows(k - 1);
      RunWritesOnce(h, j, k - 1);
      OlderTokensRevoked(h, j, k - 1);
      StepStartsAt(h.worlds[k - 1], h.steps[k - 1], user, from);
    }
  }

  /** If no older token of the user is live, the next one cannot be exchanged for an older one. */
  lemma StepStartsAt(w: World, step: Step, user: string, from: nat)
    requires w.db.Linked() && Chained(w) && from <= |w.parents| && StartsAt(w, user, from)
    requires forall t :: 0 <= t < from && w.db.refresh[t].user == user ==> w.db.refresh[t].revokedAt.Some?
    ensures Chained(Next(w, step)) && StartsAt(Next(w, step), user, from)
  {
    var v := Next(w, step);
    StepKeepsChains(w, step);
    StepEvolves(w.db, step);
    forall t | from <= t < |v.parents| && v.db.refresh[t].user == user && v.parents[t].Some?
      ensures v.parents[t].value >= from
    {
      assert ParentOk(v, t);
      if t < |w.parents| {
        assert RefreshEvolves(w.db.refresh[t], v.db.refresh[t]);
      } else {
        assert RefreshEvolves(w.db.refresh[step.raw], v.db.refresh[step.raw]);
      }
    }
  }

  lemma {:induction false} RootAfter(w: World, user: string, from: nat, t: nat)
    requires Chained(w) && StartsAt(w, user, from) && from <= t < |w.parents| && w.db.refresh[t].user == user
    ensures from <= Root(w, t)
    decreases t
  {
    if w.parents[t].Some? {
      assert ParentOk(w, t);
      RootAfter(w, user, from, w.parents[t].value);
    }
  }

  /** Every session of the user that is live after the reset goes back to a login made after it. */
  lemma LiveSessionsComeAfterReset(h: History, j: nat, k: nat, t: nat)
    requires h.IsRun() && j < k < |h.worlds| && h.Follows(j) && Resets(h.worlds[j].db, h.steps[j])
    requires Chained(h.worlds[k]) && t < |h.worlds[k].parents|
    requires h.worlds[k].db.refresh[t].user == h.worlds[j].db.actions[h.steps[j].raw].user
    requires h.worlds[k].db.refresh[t].revokedAt.None?
    ensures |h.worlds[j].db.refresh| <= Root(h.worlds[k], t)
    ensures h.worlds[k].parents[Root(h.worlds[k], t)].None?
  {
    var user, from := h.worlds[j].db.actions[h.steps[j].raw].user, |h.worlds[j].db.refresh|;
    ResetStartsAfresh(h, j, k);
    RunWritesOnce(h, j, k);
    assert t < from ==> RefreshEvolves(h.worlds[j].db.refresh[t], h.worlds[k].db.refresh[t]);
    if t < from {
      RevokedByReset(h, j, k, t);
    }
    RootAfter(h.worlds[k], user, from, t);
    RootIsOlder(h.worlds[k], t);
  }

  // ----- action tokens -----

  ghost predicate OneUnused(actions: seq<ActionToken>) {
    forall t, u :: 0 <= t < u < |actions| && actions[t].usedAt.None? ==>
        !Unused(actions, u, actions[t].user, actions[t].purpose)
  }

  /** Creating a token keeps at most one unused per user and purpose exactly when none is unused yet. */
  lemma CreateKeepsOneIff(actions: seq<ActionToken>, user: string, purpose: Purpose, expiresAt: Time)
    ensures OneUnused(Created(actions, user, purpose, expiresAt)) <==>
              OneUnused(actions) && forall t: nat :: t < |actions| ==> !Unused(actions, t, user, purpose)
  {
    var all, n := Created(actions, user, purpose, expiresAt), |actions|;
    assert Unused(all, n, user, purpose);
    if OneUnused(all) {
      forall t: nat | t < n ensures !Unused(actions, t, user, purpose) {
        assert all[t] == actions[t];
        assert all[t].usedAt.None? ==> !Unused(all, n, all[t].user, all[t].purpose);
      }
      forall t, u | 0 <= t < u < n && actions[t].usedAt.None?
        ensures !Unused(actions, u, actions[t].user, actions[t].purpose)
      {
        assert all[t] == actions[t] && all[u] == actions[u];
        assert !Unused(all, u, all[t].user, all[t].purpose);
      }
    }
    if OneUnused(actions) && forall t: nat :: t < n ==> !Unused(actions, t, user, purpose) {
      forall t, u | 0 <= t < u < |all| && all[t].usedAt.None? ensures !Unused(all, u, all[t].user, all[t].purpose) {
        assert all[t] == actions[t];
        if u < n {
          assert all[u] == actions[u];
          assert !Unused(actions, u, actions[t].user, actions[t].purpose);
        } else {
          assert !Unused(actions, t, user, purpose);
        }
      }
    }
  }

  lemma MarkingKeepsOne(actions: seq<ActionToken>, marked: seq<ActionToken>)
    requires OneUnused(actions) && |marked| == |actions|
    requires forall t :: 0 <= t < |actions| ==> ActionEvolves(actions[t], marked[t])
    ensures OneUnused(marked)
  {
    forall t, u | 0 <= t < u < |marked| && marked[t].usedAt.None?
      ensures !Unused(marked, u, marked[t].user, marked[t].purpose)
    {
      assert ActionEvolves(actions[t], marked[t]) && ActionEvolves(actions[u], marked[u]);
      assert !Unused(actions, u, actions[t].user, actions[t].purpose);
    }
  }

  /** The two writes of an issue, taken as one step, and also either of them alone. */
  lemma IssueKeepsOne(db: Db, user: string, purpose: Purpose, ttl: Time, now: Time, fault: Fault)
    requires OneUnused(db.actions)
    ensures OneUnused(IssueAction(db, user, purpose, ttl, now, fault).actions)
  {
    var invalidated := Invalidated(db.actions, user, purpose, now);
    MarkingKeepsOne(db.actions, invalidated);
    CreateKeepsOneIff(invalidated, user, purpose, now + ttl);
  }

  lemma StepKeepsOneUnused(db: Db, step: Step)
    requires db.Linked() && OneUnused(db.actions)
    ensures OneUnused(Exec(db, step).db.actions)
  {
    match step
    case DoRegister(email, password, now, fault) =>
      IssueKeepsOne(db, email, VerifyPurpose, VERIFICATION_TTL, now, NoFault);
    case DoRequestReset(email, now, trouble) => IssueKeepsOne(db, email, ResetPurpose, RESET_TTL, now, trouble);
    case DoResend(email, now, trouble) => IssueKeepsOne(db, email, VerifyPurpose, VERIFICATION_TTL, now, trouble);
    case DoVerify(raw, now, fault) =>
      StepEvolves(db, step);
      MarkingKeepsOne(db.actions, Exec(db, step).db.actions);
    case DoReset(raw, password, now, fault) =>
      StepEvolves(db, step);
      MarkingKeepsOne(db.actions, Exec(db, step).db.actions);
    case _ =>
  }

  lemma {:induction false} RunKeepsOneUnused(h: History, k: nat)
    requires h.IsRun() && k < |h.worlds|
    ensures OneUnused(h.worlds[k].db.actions)
  {
    if k > 0 {
      RunKeepsOneUnused(h, k - 1);
      assert h.Follows(k - 1);
      StepKeepsOneUnused(h.worlds[k - 1].db, h.steps[k - 1]);
    }
  }

  // ----- issues that are not atomic -----

  /** The two statements of an issue, for one user and purpose. */
  datatype Write = Invalidates(now: Time) | Creates(expiresAt: Time)

  function WriteOnce(actions: seq<ActionToken>, user: string, purpose: Purpose, write: Write): seq<ActionToken> {
    match write
    case Invalidates(now) => Invalidated(actions, user, purpose, now)
    case Creates(expiresAt) => Created(actions, user, purpose, expiresAt)
  }

  function Written(actions: seq<ActionToken>, user: string, purpose: Purpose, writes: seq<Write>): seq<ActionToken> {
    if |writes| == 0 then actions
    else WriteOnce(Written(actions, user, purpose, writes[..|writes| - 1]), user, purpose, writes[|writes| - 1])
  }

  function UnusedTokens(actions: seq<ActionToken>, user: string, purpose: Purpose): set<nat> {
    set t: nat | t < |actions| && Unused(actions, t, user, purpose)
  }

  /** The tokens created after the last invalidation, and all that were unused if there is none. */
  function Remaining(writes: seq<Write>, unused: nat): nat {
    if |writes| == 0 then unused
    else if writes[|writes| - 1].Invalidates? then 0
    else Remaining(writes[..|writes| - 1], unused) + 1
  }

  /** Whatever the order in which the statements of any number of issues reach the table, what stays
      unused is what was created after the last invalidation. */
  lemma {:induction false} UnusedAfterWrites(actions: seq<ActionToken>, user: string, purpose: Purpose,
                                             writes: seq<Write>)
    ensures |UnusedTokens(Written(actions, user, purpose, writes), user, purpose)|
            == Remaining(writes, |UnusedTokens(actions, user, purpose)|)
  {
    if |writes| > 0 {
      var front, last := writes[..|writes| - 1], writes[|writes| - 1];
      UnusedAfterWrites(actions, user, purpose, front);
      OneMoreWrite(Written(actions, user, purpose, front), user, purpose, last);
    }
  }

  lemma OneMoreWrite(actions: seq<ActionToken>, user: string, purpose: Purpose, write: Write)
    ensures |UnusedTokens(WriteOnce(actions, user, purpose, write), user, purpose)|
            == if write.Invalidates? then 0 else |UnusedTokens(actions, user, purpose)| + 1
  {
    match write
    case Invalidates(now) => InvalidatedLeavesNone(actions, user, purpose, now);
    case Creates(expiresAt) => CreatedAddsOne(actions, user, purpose, expiresAt);
  }

  lemma InvalidatedLeavesNone(actions: seq<ActionToken>, user: string, purpose: Purpose, now: Time)
    ensures UnusedTokens(Invalidated(actions, user, purpose, now), user, purpose) == {}
  {
  }

  lemma CreatedAddsOne(actions: seq<ActionToken>, user: string, purpose: Purpose, expiresAt: Time)
    ensures |UnusedTokens(Created(actions, user, purpose, expiresAt), user, purpose)|
            == |UnusedTokens(actions, user, purpose)| + 1
  {
    var after, before := UnusedTokens(Created(actions, user, purpose, expiresAt), user, purpose),
                         UnusedTokens(actions, user, purpose);
    forall t: nat ensures t in after <==> t in before || t == |actions| {
      if t < |actions| { assert Created(actions, user, purpose, expiresAt)[t] == actions[t]; }
    }
    assert after == before + {|actions|};
  }

  /** So the atomicity above is needed: two issues for any user and purpose, on any table, that both
      invalidate before either creates leave two unused tokens. */
  lemma InterleavedIssuesLeaveTwo(actions: seq<ActionToken>, user: string, purpose: Purpose,
                                  first: Time, second: Time, expires: Time, otherExpires: Time)
    ensures var after := Written(actions, user, purpose,
                                 [Invalidates(first), Invalidates(second), Creates(expires), Creates(otherExpires)]);
            |UnusedTokens(after, user, purpose)| == 2 && !OneUnused(after)
  {
    var writes := [Invalidates(first), Invalidates(second), Creates(expires), Creates(otherExpires)];
    var before := |UnusedTokens(actions, user, purpose)|;
    assert writes[..3][..2] == writes[..2] && Remaining(writes[..2], before) == 0;
    assert Remaining(writes[..3], before) == 1 && Remaining(writes, before) == 2;
    UnusedAfterWrites(actions, user, purpose, writes);
    if OneUnused(Written(actions, user, purpose, writes)) {
      OneUnusedIsOne(Written(actions, user, purpose, writes), user, purpose);
    }
  }

  lemma OneUnusedIsOne(actions: seq<ActionToken>, user: string, purpose: Purpose)
    requires OneUnused(actions)
    ensures |UnusedTokens(actions, user, purpose)| <= 1
  {
    var unused := UnusedTokens(actions, user, purpose);
    if unused != {} {
      var t :| t in unused;
      assert unused == {t};
    }
  }

  predicate Consumes(db: Db, step: Step)
    requires db.Linked()
  {
    (step.DoVerify? || step.DoReset?) && Exec(db, step).answer == Done
  }

  function PurposeOf(step: Step): Purpose
    requires step.DoVerify? || step.DoReset?
  {
    if step.DoVerify? then VerifyPurpose else ResetPurpose
  }

  lemma ConsumedOnce(db: Db, step: Step)
    requires db.Linked() && Consumes(db, step)
    ensures Consumable(db, step.raw, PurposeOf(step), step.now)
    ensures step.raw < |Exec(db, step).db.actions| && Exec(db, step).db.actions[step.raw].usedAt.Some?
  {
  }

  /** A token is consumed at most once in a run, only for its own purpose and before it expires. */
  lemma ConsumedAtMostOnce(h: History, j: nat, k: nat)
    requires h.IsRun() && j <= k < |h.steps| && h.Follows(j) && h.Follows(k)
    requires Consumes(h.worlds[j].db, h.steps[j])
    ensures var token := h.worlds[j].db.actions[h.steps[j].raw];
            token.purpose == PurposeOf(h.steps[j]) && h.steps[j].now < token.expiresAt && token.usedAt.None?
    ensures j < k && (h.steps[k].DoVerify? || h.steps[k].DoReset?) && h.steps[k].raw == h.steps[j].raw ==>
              !Consumes(h.worlds[k].db, h.steps[k])
  {
    ConsumedOnce(h.worlds[j].db, h.steps[j]);
    if j < k {
      var raw := h.steps[j].raw;
      RunWritesOnce(h, j + 1, k);
      if Consumes(h.worlds[k].db, h.steps[k]) { ConsumedOnce(h.worlds[k].db, h.steps[k]); }
      assert ActionEvolves(h.worlds[j + 1].db.actions[raw], h.worlds[k].db.actions[raw]);
    }
  }

  /** An action that fails leaves the token unused and every row as it was. */
  lemma FailedActionChangesNothing(db: Db, step: Step)
    requires db.Linked() && (step.DoVerify? || step.DoReset?) && !Consumes(db, step)
    ensures Exec(db, step).db == db
  {
  }
}
