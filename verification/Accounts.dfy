/**
 Accounts, sessions and mailed action tokens: the tables and what each call does to them.

 A user is named by the normalised e-mail, which is unique and never updated. A raw token is a fresh
 random value, and only its hash is stored; here a token is named by its place in the order of issue,
 and every other integer is a value that was never issued. A transaction is one atomic step: a fault
 inside it rolls everything back. The calls that write outside a transaction may stop between their
 writes, which `Fault` describes.
 */
module Accounts {
  import opened Wrappers
  import Base64
  import Password

  type Time = int // seconds

  /** A password as bytes. */
  type Secret = seq<Base64.Byte>

  const REFRESH_TTL: Time := 30 * 24 * 3600
  const VERIFICATION_TTL: Time := 24 * 3600
  const RESET_TTL: Time := 30 * 60

  datatype Purpose = VerifyPurpose | ResetPurpose

  datatype Status = Active | Suspended | Deleted

  /** The password stands for its hash, which accepts that password and no other. */
  datatype User = User(password: Secret, verifiedAt: Option<Time>, status: Status)

  datatype RefreshToken = RefreshToken(user: string, expiresAt: Time, revokedAt: Option<Time>)

  datatype ActionToken = ActionToken(user: string, purpose: Purpose, expiresAt: Time, usedAt: Option<Time>)

  datatype Db = Db(
    users: map<string, User>,
    refresh: seq<RefreshToken>,
    actions: seq<ActionToken>,
    audits: nat)
  {
    /** The foreign keys of both token tables. */
    predicate Linked() {
      && (forall t :: 0 <= t < |refresh| ==> refresh[t].user in users)
      && (forall t :: 0 <= t < |actions| ==> actions[t].user in users)
    }
  }

  const EMPTY := Db(map[], [], [], 0)

  datatype Fault = NoFault | BeforeWrites | BetweenWrites | AfterWrites

  datatype Error = InvalidCredentials | InactiveAccount | EmailNotVerified | InvalidToken | Conflict | BadPassword
      | Failed

  datatype Answer =
    | Done
    | Session(refreshToken: nat)
    | Mailed(actionToken: nat)
    | Err(error: Error)

  datatype Effect = Effect(db: Db, answer: Answer)

  predicate MayHoldSession(user: User) {
    user.status == Active && user.verifiedAt.Some?
  }

  // ----- statements on the token tables -----

  predicate Refreshable(db: Db, raw: int, now: Time) {
    0 <= raw < |db.refresh| && db.refresh[raw].revokedAt.None? && db.refresh[raw].expiresAt > now
  }

  function Revoked(refresh: seq<RefreshToken>, raw: int, now: Time): seq<RefreshToken> {
    if 0 <= raw < |refresh| && refresh[raw].revokedAt.None? then
      refresh[raw := refresh[raw].(revokedAt := Some(now))]
    else
      refresh
  }

  function AllRevoked(refresh: seq<RefreshToken>, user: string, now: Time): seq<RefreshToken> {
    seq(|refresh|, t requires 0 <= t < |refresh| =>
      if refresh[t].user == user && refresh[t].revokedAt.None? then refresh[t].(revokedAt := Some(now)) else refresh[t])
  }

  predicate Consumable(db: Db, raw: int, purpose: Purpose, now: Time) {
    && 0 <= raw < |db.actions| && db.actions[raw].purpose == purpose
    && db.actions[raw].usedAt.None? && db.actions[raw].expiresAt > now
  }

  function Used(actions: seq<ActionToken>, raw: nat, now: Time): seq<ActionToken>
    requires raw < |actions|
  {
    actions[raw := actions[raw].(usedAt := Some(now))]
  }

  function Invalidated(actions: seq<ActionToken>, user: string, purpose: Purpose, now: Time): seq<ActionToken> {
    seq(|actions|, t requires 0 <= t < |actions| =>
      if actions[t].user == user && actions[t].purpose == purpose && actions[t].usedAt.None?
      then actions[t].(usedAt := Some(now)) else actions[t])
  }

  function Created(actions: seq<ActionToken>, user: string, purpose: Purpose, expiresAt: Time): seq<ActionToken> {
    actions + [ActionToken(user, purpose, expiresAt, None)]
  }

  predicate Unused(actions: seq<ActionToken>, t: nat, user: string, purpose: Purpose)
    requires t < |actions|
  {
    actions[t].user == user && actions[t].purpose == purpose && actions[t].usedAt.None?
  }

  predicate OnlyUnused(actions: seq<ActionToken>, token: nat, user: string, purpose: Purpose) {
    token < |actions| && forall t: nat :: t < |actions| ==> (Unused(actions, t, user, purpose) <==> t == token)
  }

  // ----- calls -----

  function Register(db: Db, email: string, password: Secret, now: Time, fault: bool): Effect {
    if !Password.PasswordFits(password) then
      Effect(db, Err(BadPassword))
    else if email in db.users then
      Effect(db, Err(Conflict))
    else if fault then
      Effect(db, Err(Failed))
    else
      Effect(Db(db.users[email := User(password, None, Active)], db.refresh,
                Created(Invalidated(db.actions, email, VerifyPurpose, now), email, VerifyPurpose,
                        now + VERIFICATION_TTL),
                db.audits + 1),
             Mailed(|db.actions|))
  }

  /** Not in a transaction: the token stays in the table when a later write fails. */
  function Login(db: Db, email: string, password: Secret, now: Time, fault: Fault): Effect {
    if email !in db.users || db.users[email].password != password then
      Effect(db, Err(InvalidCredentials))
    else if db.users[email].status != Active then
      Effect(db, Err(InactiveAccount))
    else if db.users[email].verifiedAt.None? then
      Effect(db, Err(EmailNotVerified))
    else if fault == BeforeWrites then
      Effect(db, Err(Failed))
    else
      var issued := db.(refresh := db.refresh + [RefreshToken(email, now + REFRESH_TTL, None)]);
      if fault != NoFault then
        Effect(issued, Err(Failed))
      else
        Effect(issued.(audits := db.audits + 1), Session(|db.refresh|))
  }

  function Refresh(db: Db, raw: int, now: Time, fault: bool): Effect
    requires db.Linked()
  {
    if !Refreshable(db, raw, now) then
      Effect(db, Err(InvalidToken))
    else
      var user := db.refresh[raw].user;
      if !MayHoldSession(db.users[user]) then
        Effect(db, Err(InvalidToken))
      else if fault then
        Effect(db, Err(Failed))
      else
        Effect(db.(refresh := Revoked(db.refresh, raw, now) + [RefreshToken(user, now + REFRESH_TTL, None)]),
               Session(|db.refresh|))
  }

  /** Not in a transaction either: the consuming update, the revoking update, the audit. The error of
      the first is ignored. */
  function Logout(db: Db, raw: int, now: Time, consumeFails: bool, revokeFails: bool, auditFails: bool): Effect {
    var consumed := !consumeFails && Refreshable(db, raw, now);
    var first := if consumed then db.(refresh := Revoked(db.refresh, raw, now)) else db;
    if revokeFails then
      Effect(first, Err(Failed))
    else
      var second := first.(refresh := Revoked(first.refresh, raw, now));
      if consumed && auditFails then Effect(second, Err(Failed))
      else if consumed then Effect(second.(audits := db.audits + 1), Done)
      else Effect(second, Done)
  }

  /** Two writes outside a transaction; `fault` may stop them in the middle. */
  function IssueAction(db: Db, user: string, purpose: Purpose, ttl: Time, now: Time, fault: Fault): Db {
    var invalidated := Invalidated(db.actions, user, purpose, now);
    match fault
    case BeforeWrites => db
    case BetweenWrites => db.(actions := invalidated)
    case _ => db.(actions := Created(invalidated, user, purpose, now + ttl))
  }

  function RequestPasswordReset(db: Db, email: string, now: Time, fault: Fault): Effect {
    if email !in db.users || db.users[email].status != Active then
      Effect(db, Done) // the caller must not learn whether the account exists
    else
      var issued := IssueAction(db, email, ResetPurpose, RESET_TTL, now, fault);
      if fault != NoFault then Effect(issued, Err(Failed))
      else Effect(issued.(audits := db.audits + 1), Mailed(|db.actions|))
  }

  function ResendVerification(db: Db, email: string, now: Time, fault: Fault): Effect {
    if email !in db.users || db.users[email].verifiedAt.Some? || db.users[email].status != Active then
      Effect(db, Done)
    else
      var issued := IssueAction(db, email, VerifyPurpose, VERIFICATION_TTL, now, fault);
      if fault == BeforeWrites || fault == BetweenWrites then Effect(issued, Err(Failed))
      else Effect(issued, Mailed(|db.actions|))
  }

  function VerifyEmail(db: Db, raw: int, now: Time, fault: bool): Effect
    requires db.Linked()
  {
    if !Consumable(db, raw, VerifyPurpose, now) then
      Effect(db, Err(InvalidToken))
    else
      var user := db.actions[raw].user;
      if db.users[user].status != Active || fault then
        Effect(db, Err(Failed))
      else
        var verifiedAt := if db.users[user].verifiedAt.Some? then db.users[user].verifiedAt else Some(now);
        Effect(Db(db.users[user := db.users[user].(verifiedAt := verifiedAt)], db.refresh,
                  Used(db.actions, raw, now), db.audits + 1), Done)
  }

  /** The password update touches no row of an inactive user and says nothing about it; the token is
      used and the sessions are revoked all the same. */
  function ResetPassword(db: Db, raw: int, password: Secret, now: Time, fault: bool): Effect
    requires db.Linked()
  {
    if !Password.PasswordFits(password) then
      Effect(db, Err(BadPassword))
    else if !Consumable(db, raw, ResetPurpose, now) then
      Effect(db, Err(InvalidToken))
    else if fault then
      Effect(db, Err(Failed))
    else
      var user := db.actions[raw].user;
      var row := db.users[user];
      Effect(Db(db.users[user := if row.status == Active then row.(password := password) else row],
                AllRevoked(db.refresh, user, now), Used(db.actions, raw, now), db.audits + 1), Done)
  }

  /** Moderation changes the status of an account; no call above does. */
  function SetStatus(db: Db, email: string, status: Status): Effect {
    if email in db.users then Effect(db.(users := db.users[email := db.users[email].(status := status)]), Done)
    else Effect(db, Err(Failed))
  }

  // ----- runs -----

  datatype Step =
    | DoRegister(email: string, password: Secret, now: Time, fault: bool)
    | DoLogin(email: string, password: Secret, now: Time, trouble: Fault)
    | DoRefresh(raw: int, now: Time, fault: bool)
    | DoLogout(raw: int, now: Time, consumeFails: bool, revokeFails: bool, auditFails: bool)
    | DoRequestReset(email: string, now: Time, trouble: Fault)
    | DoResend(email: string, now: Time, trouble: Fault)
    | DoVerify(raw: int, now: Time, fault: bool)
    | DoReset(raw: int, password: Secret, now: Time, fault: bool)
    | DoSetStatus(email: string, status: Status)

  function Exec(db: Db, step: Step): Effect
    requires db.Linked()
  {
    match step
    case DoRegister(email, password, now, fault) => Register(db, email, password, now, fault)
    case DoLogin(email, password, now, trouble) => Login(db, email, password, now, trouble)
    case DoRefresh(raw, now, fault) => Refresh(db, raw, now, fault)
    case DoLogout(raw, now, consumeFails, revokeFails, auditFails) =>
      Logout(db, raw, now, consumeFails, revokeFails, auditFails)
    case DoRequestReset(email, now, trouble) => RequestPasswordReset(db, email, now, trouble)
    case DoResend(email, now, trouble) => ResendVerification(db, email, now, trouble)
    case DoVerify(raw, now, fault) => VerifyEmail(db, raw, now, fault)
    case DoReset(raw, password, now, fault) => ResetPassword(db, raw, password, now, fault)
    case DoSetStatus(email, status) => SetStatus(db, email, status)
  }

  /** The refresh token was exchanged for a new one. */
  predicate Exchanges(db: Db, step: Step)
    requires db.Linked()
  {
    step.DoRefresh? && Exec(db, step).answer.Session?
  }

  /** The tables, and for every refresh token the token it was exchanged for, if any: a token without
      one comes from a login. The second part is history; the database does not keep it. */
  datatype World = World(db: Db, parents: seq<Option<nat>>)

  function Next(w: World, step: Step): World
    requires w.db.Linked()
  {
    var db := Exec(w.db, step).db;
    World(db,
          if Exchanges(w.db, step) then w.parents + [Some(step.raw)]
          else if |db.refresh| > |w.db.refresh| then w.parents + [None]
          else w.parents)
  }

  datatype History = History(worlds: seq<World>, steps: seq<Step>) {
    ghost predicate IsRun() {
      && |worlds| == |steps| + 1
      && worlds[0] == World(EMPTY, [])
      && forall k :: 0 <= k < |steps| ==> Follows(k)
    }

    ghost predicate Follows(k: nat)
      requires |worlds| == |steps| + 1
      requires k < |steps|
    {
      worlds[k].db.Linked() && worlds[k + 1] == Next(worlds[k], steps[k])
    }
  }
}
