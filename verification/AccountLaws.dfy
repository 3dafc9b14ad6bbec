/**
 What each account call answers and leaves behind, told on the columns, with the lengths and lifetimes of
 the product written out; and that a token works for as long as it was issued for.
 */
module AccountLaws {
  import opened Wrappers
  import opened Accounts
  import opened AccountRuns

  // ----- the columns -----

  predicate GoodLength(password: Secret) {
    12 <= |password| <= 128
  }

  predicate IsActive(db: Db, email: string) {
    email in db.users && db.users[email].status == Active
  }

  predicate IsVerified(db: Db, email: string) {
    email in db.users && db.users[email].verifiedAt.Some?
  }

  /** The row exists, was not revoked, and has not expired. */
  predicate LiveRefresh(db: Db, raw: int, now: Time) {
    0 <= raw < |db.refresh| && db.refresh[raw].revokedAt == None && now < db.refresh[raw].expiresAt
  }

  /** The row exists for the purpose, was not used, and has not expired. */
  predicate LiveAction(db: Db, raw: int, purpose: Purpose, now: Time) {
    && 0 <= raw < |db.actions| && db.actions[raw].purpose == purpose
    && db.actions[raw].usedAt == None && now < db.actions[raw].expiresAt
  }

  /** One token was added, and the older unused ones of its user and purpose count as used. */
  ghost predicate MailedOne(before: seq<ActionToken>, after: seq<ActionToken>, user: string, purpose: Purpose,
                            now: Time, expiresAt: Time)
  {
    && |after| == |before| + 1
    && after[|before|] == ActionToken(user, purpose, expiresAt, None)
    && OlderInvalidated(before, after, user, purpose, now)
  }

  ghost predicate OlderInvalidated(before: seq<ActionToken>, after: seq<ActionToken>, user: string, purpose: Purpose,
                                   now: Time)
  {
    && |before| <= |after|
    && forall t :: 0 <= t < |before| ==>
         after[t] == if before[t].user == user && before[t].purpose == purpose && before[t].usedAt == None
                     then before[t].(usedAt := Some(now)) else before[t]
  }

  // ----- each call -----

  lemma RegisterAnswer(db: Db, email: string, password: Secret, now: Time, fault: bool)
    ensures var e := Register(db, email, password, now, fault);
            && (e.answer == Err(BadPassword) <==> !GoodLength(password))
            && (e.answer == Err(Conflict) <==> GoodLength(password) && email in db.users)
            && (e.answer == Err(Failed) <==> GoodLength(password) && email !in db.users && fault)
            && (e.answer == Mailed(|db.actions|) <==> GoodLength(password) && email !in db.users && !fault)
            && (!e.answer.Mailed? ==> e.db == db)
            && (e.answer.Mailed? ==>
                  && e.db.users == db.users[email := User(password, None, Active)]
                  && MailedOne(db.actions, e.db.actions, email, VerifyPurpose, now, now + 86_400)
                  && e.db.refresh == db.refresh && e.db.audits == db.audits + 1)
  {
  }

  lemma LoginAnswer(db: Db, email: string, password: Secret, now: Time, fault: Fault)
    ensures var e := Login(db, email, password, now, fault);
            var known := email in db.users && db.users[email].password == password;
            var active, verified := IsActive(db, email), IsVerified(db, email);
            && (e.answer == Err(InvalidCredentials) <==> !known)
            && (e.answer == Err(InactiveAccount) <==> known && !active)
            && (e.answer == Err(EmailNotVerified) <==> known && active && !verified)
            && (e.answer == Err(Failed) <==> known && active && verified && fault != NoFault)
            && (e.answer == Session(|db.refresh|) <==> known && active && verified && fault == NoFault)
            && e.db.users == db.users && e.db.actions == db.actions
            && e.db.audits == (if e.answer.Session? then db.audits + 1 else db.audits)
            && e.db.refresh == if known && active && verified && fault != BeforeWrites
                               then db.refresh + [RefreshToken(email, now + 2_592_000, None)] else db.refresh
  {
  }

  /** A refresh token is exchanged exactly while it is live and its holder is active and verified. */
  lemma RefreshAnswer(db: Db, raw: int, now: Time, fault: bool)
    requires db.Linked()
    ensures var answer := Refresh(db, raw, now, fault).answer;
            var works := LiveRefresh(db, raw, now)
                         && IsActive(db, db.refresh[raw].user) && IsVerified(db, db.refresh[raw].user);
            && (answer == Session(|db.refresh|) <==> works && !fault)
            && (answer == Err(Failed) <==> works && fault)
            && (answer == Err(InvalidToken) <==> !works)
  {
  }

  lemma RefreshEffect(db: Db, raw: int, now: Time, fault: bool)
    requires db.Linked()
    ensures var e := Refresh(db, raw, now, fault);
            && (!e.answer.Session? ==> e.db == db)
            && (e.answer.Session? ==>
                  && 0 <= raw < |db.refresh|
                  && e.db == db.(refresh := db.refresh[raw := db.refresh[raw].(revokedAt := Some(now))]
                                            + [RefreshToken(db.refresh[raw].user, now + 2_592_000, None)]))
  {
  }

  /** A logout revokes the token whatever its age, unless the statement that revokes it fails. */
  lemma LogoutAnswer(db: Db, raw: int, now: Time, consumeFails: bool, revokeFails: bool, auditFails: bool)
    ensures var e := Logout(db, raw, now, consumeFails, revokeFails, auditFails);
            var consumed := !consumeFails && LiveRefresh(db, raw, now);
            && (e.answer == Done <==> !revokeFails && !(consumed && auditFails))
            && (e.answer != Done ==> e.answer == Err(Failed))
            && e.db.users == db.users && e.db.actions == db.actions
            && e.db.audits == (if e.answer == Done && consumed then db.audits + 1 else db.audits)
            && e.db.refresh == if 0 <= raw < |db.refresh| && db.refresh[raw].revokedAt == None
                                  && (consumed || !revokeFails)
                               then db.refresh[raw := db.refresh[raw].(revokedAt := Some(now))] else db.refresh
  {
  }

  lemma RequestResetAnswer(db: Db, email: string, now: Time, fault: Fault)
    ensures var e := RequestPasswordReset(db, email, now, fault);
            var active := IsActive(db, email);
            && (e.answer == Done <==> !active)
            && (e.answer == Mailed(|db.actions|) <==> active && fault == NoFault)
            && (e.answer == Err(Failed) <==> active && fault != NoFault)
            && e.db.users == db.users && e.db.refresh == db.refresh
            && e.db.audits == (if e.answer.Mailed? then db.audits + 1 else db.audits)
            && (!active || fault == BeforeWrites ==> e.db.actions == db.actions)
            && (active && fault == BetweenWrites ==>
                  && |e.db.actions| == |db.actions|
                  && OlderInvalidated(db.actions, e.db.actions, email, ResetPurpose, now))
            && (active && (fault == NoFault || fault == AfterWrites) ==>
                  MailedOne(db.actions, e.db.actions, email, ResetPurpose, now, now + 1_800))
  {
  }

  lemma ResendAnswer(db: Db, email: string, now: Time, fault: Fault)
    ensures var e := ResendVerification(db, email, now, fault);
            var asks := IsActive(db, email) && !IsVerified(db, email);
            && (e.answer == Done <==> !asks)
            && (e.answer == Mailed(|db.actions|) <==> asks && (fault == NoFault || fault == AfterWrites))
            && (e.answer == Err(Failed) <==> asks && (fault == BeforeWrites || fault == BetweenWrites))
            && e.db.users == db.users && e.db.refresh == db.refresh && e.db.audits == db.audits
            && (!asks || fault == BeforeWrites ==> e.db.actions == db.actions)
            && (asks && fault == BetweenWrites ==>
                  && |e.db.actions| == |db.actions|
                  && OlderInvalidated(db.actions, e.db.actions, email, VerifyPurpose, now))
            && (e.answer.Mailed? ==>
                  MailedOne(db.actions, e.db.actions, email, VerifyPurpose, now, now + 86_400))
  {
  }

  /** A verification goes through exactly while the token is live and the account active. */
  lemma VerifyAnswer(db: Db, raw: int, now: Time, fault: bool)
    requires db.Linked()
    ensures var e := VerifyEmail(db, raw, now, fault);
            && (e.answer == Err(InvalidToken) <==> !LiveAction(db, raw, VerifyPurpose, now))
            && (e.answer == Done <==>
                  LiveAction(db, raw, VerifyPurpose, now) && IsActive(db, db.actions[raw].user) && !fault)
            && (e.answer != Done && LiveAction(db, raw, VerifyPurpose, now) ==> e.answer == Err(Failed))
            && (e.answer != Done ==> e.db == db)
            && (e.answer == Done ==>
                  var user := db.actions[raw].user;
                  && e.db.users == db.users[user := User(db.users[user].password,
                                                         if db.users[user].verifiedAt == None then Some(now)
                                                         else db.users[user].verifiedAt, Active)]
                  && e.db.actions == db.actions[raw := db.actions[raw].(usedAt := Some(now))]
                  && e.db.refresh == db.refresh && e.db.audits == db.audits + 1)
  {
  }

  /** A reset goes through exactly while the password fits and the token is live. */
  lemma ResetAnswer(db: Db, raw: int, password: Secret, now: Time, fault: bool)
    requires db.Linked()
    ensures var answer := ResetPassword(db, raw, password, now, fault).answer;
            var live := LiveAction(db, raw, ResetPurpose, now);
            && (answer == Err(BadPassword) <==> !GoodLength(password))
            && (answer == Err(InvalidToken) <==> GoodLength(password) && !live)
            && (answer == Err(Failed) <==> GoodLength(password) && live && fault)
            && (answer == Done <==> GoodLength(password) && live && !fault)
  {
  }

  lemma ResetEffect(db: Db, raw: int, password: Secret, now: Time, fault: bool)
    requires db.Linked()
    ensures var e := ResetPassword(db, raw, password, now, fault);
            && (e.answer != Done ==> e.db == db)
            && (e.answer == Done ==>
                  var user := db.actions[raw].user;
                  && e.db.users.Keys == db.users.Keys
                  && (forall u :: u in db.users && u != user ==> e.db.users[u] == db.users[u])
                  && e.db.users[user] == (if IsActive(db, user) then db.users[user].(password := password)
                                          else db.users[user])
                  && e.db.actions == db.actions[raw := db.actions[raw].(usedAt := Some(now))]
                  && |e.db.refresh| == |db.refresh|
                  && (forall t :: 0 <= t < |db.refresh| ==>
                        e.db.refresh[t] == if db.refresh[t].user == user && db.refresh[t].revokedAt == None
                                           then db.refresh[t].(revokedAt := Some(now)) else db.refresh[t])
                  && e.db.audits == db.audits + 1)
  {
  }

  // ----- a token works for as long as it was issued for -----

  predicate IssuesRefresh(db: Db, step: Step, token: nat)
    requires db.Linked()
  {
    (step.DoLogin? || step.DoRefresh?) && Exec(db, step).answer == Session(token)
  }

  lemma RefreshIssued(db: Db, step: Step, token: nat)
    requires db.Linked() && IssuesRefresh(db, step, token)
    ensures token < |Exec(db, step).db.refresh| && Exec(db, step).db.refresh[token].expiresAt == step.now + 2_592_000
  {
  }

  /** In every run: a token that a login or a refresh gave out at time t is exchanged at any time before
      t + 30 days, while it is unrevoked and its holder is active and verified. */
  lemma RefreshTokenWorks(h: History, j: nat, k: nat, token: nat, now: Time)
    requires h.IsRun() && j < k < |h.worlds| && h.Follows(j) && IssuesRefresh(h.worlds[j].db, h.steps[j], token)
    requires now < h.steps[j].now + 2_592_000
    ensures h.worlds[k].db.Linked() && token < |h.worlds[k].db.refresh|
    ensures var db := h.worlds[k].db;
            var user := db.refresh[token].user;
            db.refresh[token].revokedAt == None && IsActive(db, user) && IsVerified(db, user) ==>
              Exec(db, DoRefresh(token, now, false)).answer == Session(|db.refresh|)
  {
    RefreshIssued(h.worlds[j].db, h.steps[j], token);
    RunWritesOnce(h, j + 1, k);
    RunWritesOnce(h, k, k);
    assert RefreshEvolves(h.worlds[j + 1].db.refresh[token], h.worlds[k].db.refresh[token]);
    RefreshAnswer(h.worlds[k].db, token, now, false);
  }

  predicate IssuesAction(db: Db, step: Step, token: nat)
    requires db.Linked()
  {
    Exec(db, step).answer == Mailed(token)
  }

  /** Half an hour for a reset, a day for a verification. */
  lemma ActionIssued(db: Db, step: Step, token: nat)
    requires db.Linked() && IssuesAction(db, step, token)
    ensures step.DoRequestReset? || step.DoRegister? || step.DoResend?
    ensures token < |Exec(db, step).db.actions|
    ensures Exec(db, step).db.actions[token]
            == ActionToken(step.email, if step.DoRequestReset? then ResetPurpose else VerifyPurpose,
                           step.now + (if step.DoRequestReset? then 1_800 else 86_400), None)
  {
  }

  /** In every run: a mailed reset token works for 30 minutes and a verification token for a day, as long
      as it is unused, for an account that is active. */
  lemma ActionTokenWorks(h: History, j: nat, k: nat, token: nat, password: Secret, now: Time)
    requires h.IsRun() && j < k < |h.worlds| && h.Follows(j) && IssuesAction(h.worlds[j].db, h.steps[j], token)
    ensures h.worlds[k].db.Linked() && token < |h.worlds[k].db.actions|
    ensures var db, step := h.worlds[k].db, h.steps[j];
            var unused := db.actions[token].usedAt == None;
            && (step.DoRequestReset? && unused && now < step.now + 1_800 && GoodLength(password) ==>
                  Exec(db, DoReset(token, password, now, false)).answer == Done)
            && (!step.DoRequestReset? && unused && now < step.now + 86_400 && IsActive(db, db.actions[token].user) ==>
                  Exec(db, DoVerify(token, now, false)).answer == Done)
  {
    ActionIssued(h.worlds[j].db, h.steps[j], token);
    RunWritesOnce(h, j + 1, k);
    RunWritesOnce(h, k, k);
    assert ActionEvolves(h.worlds[j + 1].db.actions[token], h.worlds[k].db.actions[token]);
    ResetAnswer(h.worlds[k].db, token, password, now, false);
    VerifyAnswer(h.worlds[k].db, token, now, false);
  }
}
