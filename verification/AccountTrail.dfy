/** Where a login comes from: who set the password it checks, and how the e-mail became verified. */
module AccountTrail {
  import opened Wrappers
  import opened Accounts
  import Password
  import opened AccountRuns

  /** The call consumed an action token that had been issued to `user`. */
  predicate ConsumesFor(db: Db, step: Step, user: string)
    requires db.Linked()
  {
    Consumes(db, step) && db.actions[step.raw].user == user
  }

  /** The calls that may write a password: the registration, and a reset of an active user. */
  predicate SetsPassword(db: Db, step: Step, user: string)
    requires db.Linked()
  {
    || (step.DoRegister? && step.email == user && Exec(db, step).answer.Mailed?)
    || (step.DoReset? && ConsumesFor(db, step, user) && db.users[user].status == Active)
  }

  lemma PasswordStep(db: Db, step: Step, user: string)
    requires db.Linked() && user in Exec(db, step).db.users
    ensures SetsPassword(db, step, user) ==>
              Exec(db, step).db.users[user].password == step.password && Password.PasswordFits(step.password)
    ensures !SetsPassword(db, step, user) ==>
              user in db.users && Exec(db, step).db.users[user].password == db.users[user].password
  {
  }

  lemma VerifiedStep(db: Db, step: Step, user: string)
    requires db.Linked() && user in Exec(db, step).db.users && Exec(db, step).db.users[user].verifiedAt.Some?
    requires user !in db.users || db.users[user].verifiedAt.None?
    ensures step.DoVerify? && ConsumesFor(db, step, user)
    ensures Exec(db, step).db.users[user].verifiedAt == Some(step.now)
  {
  }

  /** Call `n` of the run set the password of `user`. */
  ghost predicate SetAt(h: History, n: nat, user: string)
    requires h.IsRun() && n < |h.steps|
  {
    h.Follows(n) && SetsPassword(h.worlds[n].db, h.steps[n], user)
  }

  ghost predicate LastSetAt(h: History, n: nat, k: nat, user: string)
    requires h.IsRun() && k < |h.worlds|
  {
    n < k && SetAt(h, n, user) && forall m :: n < m < k ==> !SetAt(h, m, user)
  }

  lemma PasswordAt(h: History, k: nat, user: string)
    requires h.IsRun() && k < |h.steps| && user in h.worlds[k + 1].db.users
    ensures SetAt(h, k, user) ==>
              && h.worlds[k + 1].db.users[user].password == h.steps[k].password
              && Password.PasswordFits(h.steps[k].password)
    ensures !SetAt(h, k, user) ==>
              && user in h.worlds[k].db.users
              && h.worlds[k + 1].db.users[user].password == h.worlds[k].db.users[user].password
  {
    assert h.Follows(k);
    PasswordStep(h.worlds[k].db, h.steps[k], user);
  }

  /** In every run a user's password is the one of the last registration or reset that set it. */
  lemma {:induction false} PasswordComesFrom(h: History, k: nat, user: string) returns (n: nat)
    requires h.IsRun() && k < |h.worlds| && user in h.worlds[k].db.users
    ensures LastSetAt(h, n, k, user)
    ensures h.worlds[k].db.users[user].password == h.steps[n].password && Password.PasswordFits(h.steps[n].password)
  {
    if k == 0 {
      assert false;
    } else {
      PasswordAt(h, k - 1, user);
      if SetAt(h, k - 1, user) {
        n := k - 1;
      } else {
        n := PasswordComesFrom(h, k - 1, user);
      }
    }
  }

  /** In every run a verified e-mail was verified by one call that consumed a token issued to that
      user, and the time in the row is the time of that call. */
  lemma {:induction false} VerificationComesFrom(h: History, k: nat, user: string) returns (n: nat)
    requires h.IsRun() && k < |h.worlds| && user in h.worlds[k].db.users && h.worlds[k].db.users[user].verifiedAt.Some?
    ensures n < k && h.Follows(n) && h.steps[n].DoVerify? && ConsumesFor(h.worlds[n].db, h.steps[n], user)
    ensures h.worlds[k].db.users[user].verifiedAt == Some(h.steps[n].now)
  {
    if k == 0 {
      assert false;
    } else {
      assert h.Follows(k - 1);
      var db, step := h.worlds[k - 1].db, h.steps[k - 1];
      if user in db.users && db.users[user].verifiedAt.Some? {
        UsersEvolve(db, step);
        n := VerificationComesFrom(h, k - 1, user);
      } else {
        VerifiedStep(db, step, user);
        n := k - 1;
      }
    }
  }

  /** An e-mail of an account logs in exactly with the password that the last registration or reset
      set, while the account is active and verified, if no statement fails. */
  lemma LoginIff(h: History, k: nat, email: string, password: Secret, now: Time) returns (n: nat)
    requires h.IsRun() && k < |h.worlds| && email in h.worlds[k].db.users
    ensures LastSetAt(h, n, k, email)
    ensures Login(h.worlds[k].db, email, password, now, NoFault).answer.Session? <==>
              password == h.steps[n].password && MayHoldSession(h.worlds[k].db.users[email])
  {
    n := PasswordComesFrom(h, k, email);
  }

  /** A live or dead refresh token exists only for a user who earlier consumed a verification token
      that was issued to that user. */
  lemma SessionComesFrom(h: History, k: nat, t: nat) returns (n: nat)
    requires h.IsRun() && k < |h.worlds| && t < |h.worlds[k].db.refresh|
    ensures n < k && h.Follows(n) && h.steps[n].DoVerify?
    ensures ConsumesFor(h.worlds[n].db, h.steps[n], h.worlds[k].db.refresh[t].user)
  {
    RunKeepsVerifiedHolders(h, k);
    n := VerificationComesFrom(h, k, h.worlds[k].db.refresh[t].user);
  }
}
