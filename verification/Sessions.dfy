/**
 Logins, refreshes and password resets again, this time statement by statement: between any two
 statements of one call other calls may run theirs.

 The database runs at READ COMMITTED. An UPDATE locks the rows it writes until its transaction ends; it
 looks for them among the rows committed when it starts, waits for those that are locked, and looks at
 each again before it writes. Rows that a transaction wrote are seen by others when it commits. A login
 runs without a transaction, so each of its statements commits by itself. Any call may stop anywhere,
 because a statement failed or the process died; an open transaction is then undone.

 Locks on user rows are left out, which only allows more interleavings; the lock that an insertion takes for
 its foreign key does not wait for a change of password anyway. A refresh token that has expired is one whose
 consuming statement finds nothing: the call stops.
 */
module Sessions {
  import opened Wrappers
  import Accounts

  type Secret = Accounts.Secret

  datatype User = User(password: Secret, active: bool, verified: bool)

  /** The password check a session goes back to: at which step it was, and which password it accepted. */
  datatype Origin = Origin(at: nat, password: Secret)

  /** The row, and beside it what the database does not keep: the token it was exchanged for, the login
      it goes back to, and the step that committed it. */
  datatype Token = Token(user: string, revoked: bool, parent: Option<nat>, origin: Origin, committedAt: nat)

  /** An action token for a password reset. */
  datatype Mail = Mail(user: string, used: bool)

  /** Where a call stands, with its local variables. */
  datatype Call =
    | LoginStarted(user: string, password: Secret)
    | LoginChecked(user: string, origin: Origin)
    | RefreshStarted(raw: nat)
    | RefreshConsumed(raw: nat)
    | RefreshChecked(raw: nat)
    | RefreshInserted(raw: nat, id: nat)
    | ResetStarted(mail: nat, password: Secret)
    | ResetConsumed(mail: nat, password: Secret)
    | ResetUpdated(mail: nat, password: Secret, applies: bool)
    // the revoking UPDATE: the rows it found at step `since`, those still to visit and those it wrote
    | ResetRevoking(mail: nat, password: Secret, applies: bool, since: nat, todo: set<nat>, done: set<nat>)

  datatype World = World(
    users: map<string, User>,
    tokens: map<nat, Token>,
    mails: map<nat, Mail>,
    calls: map<nat, Call>,
    usedIds: set<nat>, // ids of refresh tokens, inserted or not
    clock: nat)

  const EMPTY := World(map[], map[], map[], map[], {}, 0)

  datatype Action =
    | Register(user: string, password: Secret)
    | Verify(user: string)
    | SetActive(user: string, active: bool)
    | MailReset(user: string, mail: nat)
    | Invalidate(mail: nat)
    | Logout(id: nat)
    | BeginLogin(call: nat, user: string, password: Secret)
    | CheckPassword(call: nat)
    | InsertSession(call: nat, id: nat)
    | BeginRefresh(call: nat, raw: nat)
    | ConsumeToken(call: nat)
    | CheckHolder(call: nat)
    | InsertSuccessor(call: nat, id: nat)
    | CommitRefresh(call: nat)
    | BeginReset(call: nat, mail: nat, password: Secret)
    | ConsumeMail(call: nat)
    | UpdatePassword(call: nat)
    | StartRevoking(call: nat)
    | RevokeRow(call: nat, id: nat)
    | CommitReset(call: nat)
    | Stop(call: nat)

  // ----- row locks -----

  predicate LocksToken(call: Call, id: nat) {
    match call
    case RefreshConsumed(raw) => raw == id
    case RefreshChecked(raw) => raw == id
    case RefreshInserted(raw, _) => raw == id
    case ResetRevoking(_, _, _, _, _, done) => id in done
    case _ => false
  }

  predicate LocksMail(call: Call, mail: nat) {
    (call.ResetConsumed? || call.ResetUpdated? || call.ResetRevoking?) && call.mail == mail
  }

  predicate TokenFree(w: World, id: nat) {
    forall d :: d in w.calls ==> !LocksToken(w.calls[d], id)
  }

  predicate MailFree(w: World, mail: nat) {
    forall d :: d in w.calls ==> !LocksMail(w.calls[d], mail)
  }

  // ----- what a statement finds -----

  predicate Live(w: World, id: nat) {
    id in w.tokens && !w.tokens[id].revoked
  }

  predicate MayHoldSession(w: World, user: string) {
    user in w.users && w.users[user].active && w.users[user].verified
  }

  function LiveTokensOf(w: World, user: string): set<nat> {
    set t | t in w.tokens && w.tokens[t].user == user && !w.tokens[t].revoked
  }

  predicate Enabled(w: World, a: Action) {
    match a
    case Register(user, _) => user !in w.users
    case Verify(user) => user in w.users
    case SetActive(user, _) => user in w.users
    case MailReset(user, mail) => user in w.users && mail !in w.mails
    case Invalidate(mail) => mail in w.mails && MailFree(w, mail)
    case Logout(id) => id in w.tokens && TokenFree(w, id)
    case BeginLogin(c, _, _) => c !in w.calls
    case CheckPassword(c) => c in w.calls && w.calls[c].LoginStarted?
    case InsertSession(c, id) => c in w.calls && w.calls[c].LoginChecked? && id !in w.usedIds
    case BeginRefresh(c, _) => c !in w.calls
    case ConsumeToken(c) => c in w.calls && w.calls[c].RefreshStarted? && TokenFree(w, w.calls[c].raw)
    case CheckHolder(c) => c in w.calls && w.calls[c].RefreshConsumed? && w.calls[c].raw in w.tokens
    case InsertSuccessor(c, id) => c in w.calls && w.calls[c].RefreshChecked? && id !in w.usedIds
    case CommitRefresh(c) => c in w.calls && w.calls[c].RefreshInserted? && w.calls[c].raw in w.tokens
    case BeginReset(c, _, _) => c !in w.calls
    case ConsumeMail(c) => c in w.calls && w.calls[c].ResetStarted? && MailFree(w, w.calls[c].mail)
    case UpdatePassword(c) => c in w.calls && w.calls[c].ResetConsumed? && w.calls[c].mail in w.mails
    case StartRevoking(c) => c in w.calls && w.calls[c].ResetUpdated? && w.calls[c].mail in w.mails
    case RevokeRow(c, id) =>
      c in w.calls && w.calls[c].ResetRevoking? && id in w.calls[c].todo && TokenFree(w, id)
    case CommitReset(c) =>
      && c in w.calls && w.calls[c].ResetRevoking? && w.calls[c].todo == {}
      && w.calls[c].mail in w.mails && w.mails[w.calls[c].mail].user in w.users
    case Stop(c) => c in w.calls
  }

  function At(w: World, c: nat, next: Call): World {
    w.(calls := w.calls[c := next])
  }

  function Over(w: World, c: nat): World {
    w.(calls := w.calls - {c})
  }

  function Revoked(tokens: map<nat, Token>, ids: set<nat>): map<nat, Token> {
    map t | t in tokens :: if t in ids then tokens[t].(revoked := true) else tokens[t]
  }

  /** The effect of an action but for the clock. */
  function Change(w: World, a: Action): World
    requires Enabled(w, a)
  {
    match a
    case Register(user, password) => w.(users := w.users[user := User(password, true, false)])
    case Verify(user) => w.(users := w.users[user := w.users[user].(verified := true)])
    case SetActive(user, active) => w.(users := w.users[user := w.users[user].(active := active)])
    case MailReset(user, mail) => w.(mails := w.mails[mail := Mail(user, false)])
    case Invalidate(mail) => w.(mails := w.mails[mail := w.mails[mail].(used := true)])
    case Logout(id) => w.(tokens := Revoked(w.tokens, {id}))
    case BeginLogin(c, user, password) => At(w, c, LoginStarted(user, password))
    case CheckPassword(c) =>
      var p := w.calls[c];
      if MayHoldSession(w, p.user) && w.users[p.user].password == p.password
      then At(w, c, LoginChecked(p.user, Origin(w.clock, p.password)))
      else Over(w, c)
    case InsertSession(c, id) =>
      var p := w.calls[c];
      Over(w, c).(tokens := w.tokens[id := Token(p.user, false, None, p.origin, w.clock)], usedIds := w.usedIds + {id})
    case BeginRefresh(c, raw) => At(w, c, RefreshStarted(raw))
    case ConsumeToken(c) =>
      if Live(w, w.calls[c].raw) then At(w, c, RefreshConsumed(w.calls[c].raw)) else Over(w, c)
    case CheckHolder(c) =>
      var raw := w.calls[c].raw;
      if MayHoldSession(w, w.tokens[raw].user) then At(w, c, RefreshChecked(raw)) else Over(w, c)
    case InsertSuccessor(c, id) => At(w, c, RefreshInserted(w.calls[c].raw, id)).(usedIds := w.usedIds + {id})
    case CommitRefresh(c) =>
      var p := w.calls[c];
      var parent := w.tokens[p.raw];
      var next := Token(parent.user, false, Some(p.raw), parent.origin, w.clock);
      Over(w, c).(tokens := Revoked(w.tokens, {p.raw})[p.id := next])
    case BeginReset(c, mail, password) => At(w, c, ResetStarted(mail, password))
    case ConsumeMail(c) =>
      var p := w.calls[c];
      if p.mail in w.mails && !w.mails[p.mail].used then At(w, c, ResetConsumed(p.mail, p.password)) else Over(w, c)
    case UpdatePassword(c) =>
      var p := w.calls[c];
      var user := w.mails[p.mail].user;
      At(w, c, ResetUpdated(p.mail, p.password, user in w.users && w.users[user].active))
    case StartRevoking(c) =>
      var p := w.calls[c];
      At(w, c, ResetRevoking(p.mail, p.password, p.applies, w.clock, LiveTokensOf(w, w.mails[p.mail].user), {}))
    case RevokeRow(c, id) =>
      var p := w.calls[c];
      At(w, c, p.(todo := p.todo - {id}, done := if Live(w, id) then p.done + {id} else p.done))
    case CommitReset(c) =>
      var p := w.calls[c];
      var user := w.mails[p.mail].user;
      Over(w, c).(users := if p.applies then w.users[user := w.users[user].(password := p.password)] else w.users,
                  mails := w.mails[p.mail := Mail(user, true)],
                  tokens := Revoked(w.tokens, p.done))
    case Stop(c) => Over(w, c)
  }

  function Do(w: World, a: Action): World
    requires Enabled(w, a)
  {
    Change(w, a).(clock := w.clock + 1)
  }

  /** A run: the worlds it goes through and the actions between them. */
  datatype History = History(worlds: seq<World>, actions: seq<Action>) {
    ghost predicate IsRun() {
      && |worlds| == |actions| + 1
      && worlds[0] == EMPTY
      && forall k :: 0 <= k < |actions| ==> Follows(k)
    }

    ghost predicate Follows(k: nat)
      requires |worlds| == |actions| + 1
      requires k < |actions|
    {
      Enabled(worlds[k], actions[k]) && worlds[k + 1] == Do(worlds[k], actions[k])
    }
  }
}
