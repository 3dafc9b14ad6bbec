/**
 The account calls as they run, statement by statement. A transaction works on local copies of the
 tables and writes them back when it commits; a call without a transaction writes the tables as it goes.
 */
module AccountServices {
  import opened Wrappers
  import opened Accounts
  import Password

  class AccountService {
    var users: map<string, User>
    var refreshTokens: seq<RefreshToken>
    var actionTokens: seq<ActionToken>
    var audits: nat

    function Tables(): Db
      reads this
    {
      Db(users, refreshTokens, actionTokens, audits)
    }

    /** `token` has just been added for `user`, and nothing after it. */
    predicate Issued(before: seq<RefreshToken>, token: nat, user: string, now: Time)
      reads this
    {
      && token == |before| && |refreshTokens| == |before| + 1
      && refreshTokens[token] == RefreshToken(user, now + REFRESH_TTL, None)
    }

    constructor ()
      ensures Tables() == EMPTY
    {
      users, refreshTokens, actionTokens, audits := map[], [], [], 0;
    }

    method RegisterUser(email: string, password: Secret, now: Time, fault: bool) returns (answer: Answer)
      modifies this
      ensures Effect(Tables(), answer) == Register(old(Tables()), email, password, now, fault)
      ensures answer.Mailed? ==> email !in old(users) && email in users && users[email].verifiedAt.None?
      ensures answer.Mailed? ==> OnlyUnused(actionTokens, answer.actionToken, email, VerifyPurpose)
      ensures !answer.Mailed? ==> Tables() == old(Tables())
    {
      if !Password.PasswordFits(password) {
        return Err(BadPassword);
      }
      if email in users {
        return Err(Conflict);
      }
      var txUsers := users[email := User(password, None, Active)];
      var txActions := Invalidated(actionTokens, email, VerifyPurpose, now);
      var token := |txActions|;
      txActions := Created(txActions, email, VerifyPurpose, now + VERIFICATION_TTL);
      if fault {
        return Err(Failed);
      }
      users, actionTokens, audits := txUsers, txActions, audits + 1;
      return Mailed(token);
    }

    method LoginUser(email: string, password: Secret, now: Time, fault: Fault) returns (answer: Answer)
      modifies `refreshTokens, `audits
      ensures Effect(Tables(), answer) == Login(old(Tables()), email, password, now, fault)
      ensures answer.Session? ==> Issued(old(refreshTokens), answer.refreshToken, email, now)
      ensures answer.Session? ==> email in users && users[email].password == password && MayHoldSession(users[email])
      ensures old(refreshTokens) <= refreshTokens
    {
      if email !in users || users[email].password != password {
        return Err(InvalidCredentials);
      }
      if users[email].status != Active {
        return Err(InactiveAccount);
      }
      if users[email].verifiedAt.None? {
        return Err(EmailNotVerified);
      }
      if fault == BeforeWrites {
        return Err(Failed);
      }
      var token := |refreshTokens|;
      refreshTokens := refreshTokens + [RefreshToken(email, now + REFRESH_TTL, None)];
      if fault != NoFault {
        return Err(Failed);
      }
      audits := audits + 1;
      return Session(token);
    }

    method RefreshSession(raw: int, now: Time, fault: bool) returns (answer: Answer)
      requires Tables().Linked()
      modifies `refreshTokens
      ensures Effect(Tables(), answer) == Refresh(old(Tables()), raw, now, fault)
      ensures answer.Session? ==> 0 <= raw < |old(refreshTokens)| && old(refreshTokens)[raw].revokedAt.None?
      ensures answer.Session? ==> refreshTokens[raw].revokedAt == Some(now)
      ensures answer.Session? ==> Issued(old(refreshTokens), answer.refreshToken, old(refreshTokens)[raw].user, now)
      ensures forall t :: 0 <= t < |old(refreshTokens)| && t != raw ==> refreshTokens[t] == old(refreshTokens)[t]
      ensures !answer.Session? ==> Tables() == old(Tables())
    {
      var txRefresh := refreshTokens;
      if raw < 0 || raw >= |txRefresh| || txRefresh[raw].revokedAt.Some? || txRefresh[raw].expiresAt <= now {
        return Err(InvalidToken);
      }
      var user := txRefresh[raw].user;
      txRefresh := txRefresh[raw := txRefresh[raw].(revokedAt := Some(now))];
      if !MayHoldSession(users[user]) {
        return Err(InvalidToken);
      }
      var token := |txRefresh|;
      txRefresh := txRefresh + [RefreshToken(user, now + REFRESH_TTL, None)];
      if fault {
        return Err(Failed);
      }
      refreshTokens := txRefresh;
      return Session(token);
    }

    method LogoutUser(raw: int, now: Time, consumeFails: bool, revokeFails: bool, auditFails: bool)
      returns (answer: Answer)
      modifies `refreshTokens, `audits
      ensures Effect(Tables(), answer) == Logout(old(Tables()), raw, now, consumeFails, revokeFails, auditFails)
      ensures !revokeFails && 0 <= raw < |refreshTokens| ==> refreshTokens[raw].revokedAt.Some?
    {
      var consumed := !consumeFails && Refreshable(Tables(), raw, now);
      if consumed {
        refreshTokens := refreshTokens[raw := refreshTokens[raw].(revokedAt := Some(now))];
      }
      if revokeFails {
        return Err(Failed);
      }
      if 0 <= raw < |refreshTokens| && refreshTokens[raw].revokedAt.None? {
        refreshTokens := refreshTokens[raw := refreshTokens[raw].(revokedAt := Some(now))];
      }
      if consumed {
        if auditFails {
          return Err(Failed);
        }
        audits := audits + 1;
      }
      return Done;
    }

    /** The two statements of issueActionToken, with the places where they can stop. */
    method IssueActionToken(user: string, purpose: Purpose, ttl: Time, now: Time, fault: Fault)
      returns (issued: bool, token: nat)
      modifies `actionTokens
      ensures Tables() == IssueAction(old(Tables()), user, purpose, ttl, now, fault)
      ensures token == |old(actionTokens)|
      ensures issued == (fault == NoFault || fault == AfterWrites)
    {
      token := |actionTokens|;
      if fault == BeforeWrites {
        return false, token;
      }
      actionTokens := Invalidated(actionTokens, user, purpose, now);
      if fault == BetweenWrites {
        return false, token;
      }
      actionTokens := Created(actionTokens, user, purpose, now + ttl);
      return true, token;
    }

    method RequestReset(email: string, now: Time, fault: Fault) returns (answer: Answer)
      modifies `actionTokens, `audits
      ensures Effect(Tables(), answer) == RequestPasswordReset(old(Tables()), email, now, fault)
      ensures answer.Mailed? ==> OnlyUnused(actionTokens, answer.actionToken, email, ResetPurpose)
    {
      if email !in users || users[email].status != Active {
        return Done;
      }
      var issued, token := IssueActionToken(email, ResetPurpose, RESET_TTL, now, fault);
      if !issued || fault == AfterWrites {
        return Err(Failed);
      }
      audits := audits + 1;
      return Mailed(token);
    }

    method ResendVerificationMail(email: string, now: Time, fault: Fault) returns (answer: Answer)
      modifies `actionTokens
      ensures Effect(Tables(), answer) == ResendVerification(old(Tables()), email, now, fault)
      ensures answer.Mailed? ==> OnlyUnused(actionTokens, answer.actionToken, email, VerifyPurpose)
    {
      if email !in users || users[email].verifiedAt.Some? || users[email].status != Active {
        return Done;
      }
      var issued, token := IssueActionToken(email, VerifyPurpose, VERIFICATION_TTL, now, fault);
      return if issued then Mailed(token) else Err(Failed);
    }

    method VerifyUserEmail(raw: int, now: Time, fault: bool) returns (answer: Answer)
      requires Tables().Linked()
      modifies this
      ensures Effect(Tables(), answer) == VerifyEmail(old(Tables()), raw, now, fault)
      ensures answer == Done ==>
                Consumable(old(Tables()), raw, VerifyPurpose, now) && actionTokens[raw].usedAt == Some(now)
      ensures answer == Done ==> MayHoldSession(users[actionTokens[raw].user])
      ensures answer != Done ==> Tables() == old(Tables())
    {
      if !Consumable(Tables(), raw, VerifyPurpose, now) {
        return Err(InvalidToken);
      }
      var txActions := actionTokens[raw := actionTokens[raw].(usedAt := Some(now))];
      var user := actionTokens[raw].user;
      if users[user].status != Active || fault {
        return Err(Failed); // the update found no active user, or a statement failed
      }
      var row := users[user];
      if row.verifiedAt.None? {
        row := row.(verifiedAt := Some(now));
      }
      users, actionTokens, audits := users[user := row], txActions, audits + 1;
      return Done;
    }

    method ResetUserPassword(raw: int, password: Secret, now: Time, fault: bool) returns (answer: Answer)
      requires Tables().Linked()
      modifies this
      ensures Effect(Tables(), answer) == ResetPassword(old(Tables()), raw, password, now, fault)
      ensures answer == Done ==>
                Consumable(old(Tables()), raw, ResetPurpose, now) && actionTokens[raw].usedAt == Some(now)
      ensures answer == Done ==>
                forall t :: 0 <= t < |refreshTokens| && refreshTokens[t].user == actionTokens[raw].user ==>
                  refreshTokens[t].revokedAt.Some?
      ensures answer != Done ==> Tables() == old(Tables())
    {
      if !Password.PasswordFits(password) {
        return Err(BadPassword);
      }
      if !Consumable(Tables(), raw, ResetPurpose, now) {
        return Err(InvalidToken);
      }
      var user := actionTokens[raw].user;
      var txActions := actionTokens[raw := actionTokens[raw].(usedAt := Some(now))];
      var row := users[user];
      if row.status == Active {
        row := row.(password := password);
      }
      var txRefresh := AllRevoked(refreshTokens, user, now);
      if fault {
        return Err(Failed);
      }
      users, refreshTokens, actionTokens, audits := users[user := row], txRefresh, txActions, audits + 1;
      return Done;
    }
  }
}
