/**
 A run in which a session with the old password outlives a reset, because a refresh commits between the
 start of the revoking statement and the commit of the reset.
 */
module SessionOverlap {
  import opened Wrappers
  import opened Sessions
  import opened SessionSafety
  import opened SessionReset

  const USER := "ana@tucano.test"
  const OLD: Secret := seq(12, _ => 1)
  const NEW: Secret := seq(12, _ => 2)

  const ACCOUNT := User(OLD, true, true)
  const FIRST := Token(USER, false, None, Origin(4, OLD), 5)
  const SECOND := Token(USER, false, Some(0), Origin(4, OLD), 14)

  const VERIFIED := World(map[USER := ACCOUNT], map[], map[], map[], {}, 2)

  const LOGGING_IN := VERIFIED.(mails := map[0 := Mail(USER, false)], calls := map[1 := LoginStarted(USER, OLD)],
                                clock := 4)

  /** The account has one session, and a reset was mailed. */
  const LOGGED_IN := World(map[USER := ACCOUNT], map[0 := FIRST], map[0 := Mail(USER, false)], map[], {0}, 6)

  const CONSUMED := LOGGED_IN.(calls := map[2 := RefreshConsumed(0)], clock := 8)

  /** Call 2 exchanges the token and has not committed. */
  const INSERTED := LOGGED_IN.(calls := map[2 := RefreshInserted(0, 1)], usedIds := {0, 1}, clock := 10)

  const RESETTING := INSERTED.(calls := INSERTED.calls[3 := ResetConsumed(0, NEW)], clock := 12)

  /** Call 3 resets the password; its revoking statement has found the first token only. */
  const REVOKING := INSERTED.(calls := INSERTED.calls[3 := ResetRevoking(0, NEW, true, 13, {0}, {})], clock := 14)

  /** The refresh commits before the reset gets the lock. */
  const OVERTAKEN := REVOKING.(tokens := map[0 := FIRST.(revoked := true), 1 := SECOND],
                               calls := map[3 := ResetRevoking(0, NEW, true, 13, {0}, {})], clock := 15)

  const VISITED := OVERTAKEN.(calls := map[3 := ResetRevoking(0, NEW, true, 13, {}, {})], clock := 16)

  const SURVIVED := World(map[USER := User(NEW, true, true)], map[0 := FIRST.(revoked := true), 1 := SECOND],
                          map[0 := Mail(USER, true)], map[], {0, 1}, 17)

  /** The last world of a run. */
  ghost predicate Reached(w: World) {
    exists h: History :: h.IsRun() && h.worlds[|h.actions|] == w
  }

  lemma Then(w: World, a: Action)
    requires Reached(w) && Enabled(w, a)
    ensures Reached(Do(w, a))
  {
    var h: History :| h.IsRun() && h.worlds[|h.actions|] == w;
    var g := OneMoreStep(h, |h.actions|, a);
    assert g.worlds[|g.actions|] == Do(w, a);
  }

  lemma ThenTwo(w: World, a: Action, b: Action)
    requires Reached(w) && Enabled(w, a) && Enabled(Do(w, a), b)
    ensures Reached(Do(Do(w, a), b))
  {
    Then(w, a);
    Then(Do(w, a), b);
  }

  lemma LogIn()
    ensures Reached(LOGGED_IN)
  {
    var start := History([EMPTY], []);
    assert start.IsRun() && start.worlds[|start.actions|] == EMPTY;
    SignUp();
    ThenTwo(EMPTY, Register(USER, OLD), Verify(USER));
    CheckPasswordAtFour();
    ThenTwo(VERIFIED, MailReset(USER, 0), BeginLogin(1, USER, OLD));
    FirstSession();
    ThenTwo(LOGGING_IN, CheckPassword(1), InsertSession(1, 0));
  }

  lemma SignUp()
    ensures var a, b := Register(USER, OLD), Verify(USER);
            Enabled(EMPTY, a) && Enabled(Do(EMPTY, a), b) && Do(Do(EMPTY, a), b) == VERIFIED
  {
    var v := Do(EMPTY, Register(USER, OLD));
    assert v.users[USER] == User(OLD, true, false);
  }

  lemma CheckPasswordAtFour()
    ensures var a, b := MailReset(USER, 0), BeginLogin(1, USER, OLD);
            Enabled(VERIFIED, a) && Enabled(Do(VERIFIED, a), b) && Do(Do(VERIFIED, a), b) == LOGGING_IN
  {
  }

  lemma FirstSession()
    ensures var a, b := CheckPassword(1), InsertSession(1, 0);
            Enabled(LOGGING_IN, a) && Enabled(Do(LOGGING_IN, a), b) && Do(Do(LOGGING_IN, a), b) == LOGGED_IN
  {
    var v := Do(LOGGING_IN, CheckPassword(1));
    assert v.calls[1] == LoginChecked(USER, Origin(4, OLD));
    var u := Do(v, InsertSession(1, 0));
    assert u.calls == map[] && u.tokens == map[0 := FIRST] && u.usedIds == {0};
  }

  lemma TokenConsumed()
    ensures var a, b := BeginRefresh(2, 0), ConsumeToken(2);
            Enabled(LOGGED_IN, a) && Enabled(Do(LOGGED_IN, a), b) && Do(Do(LOGGED_IN, a), b) == CONSUMED
  {
    var v := Do(LOGGED_IN, BeginRefresh(2, 0));
    assert v.calls == map[2 := RefreshStarted(0)];
    assert Do(v, ConsumeToken(2)).calls == CONSUMED.calls;
  }

  lemma SuccessorInserted()
    ensures var a, b := CheckHolder(2), InsertSuccessor(2, 1);
            Enabled(CONSUMED, a) && Enabled(Do(CONSUMED, a), b) && Do(Do(CONSUMED, a), b) == INSERTED
  {
    var v := Do(CONSUMED, CheckHolder(2));
    assert v.calls == map[2 := RefreshChecked(0)];
    assert Do(v, InsertSuccessor(2, 1)).calls == INSERTED.calls;
  }

  lemma MailConsumed()
    ensures var a, b := BeginReset(3, 0, NEW), ConsumeMail(3);
            Enabled(INSERTED, a) && Enabled(Do(INSERTED, a), b) && Do(Do(INSERTED, a), b) == RESETTING
  {
    var v := Do(INSERTED, BeginReset(3, 0, NEW));
    assert v.calls == INSERTED.calls[3 := ResetStarted(0, NEW)];
    assert Do(v, ConsumeMail(3)).calls == RESETTING.calls;
  }

  lemma FirstTokenFound()
    ensures var a, b := UpdatePassword(3), StartRevoking(3);
            Enabled(RESETTING, a) && Enabled(Do(RESETTING, a), b) && Do(Do(RESETTING, a), b) == REVOKING
  {
    var v := Do(RESETTING, UpdatePassword(3));
    assert v.calls[3] == ResetUpdated(0, NEW, true);
    assert LiveTokensOf(v, USER) == {0};
    assert Do(v, StartRevoking(3)).calls == REVOKING.calls;
  }

  lemma RefreshOvertakes()
    ensures Enabled(REVOKING, CommitRefresh(2)) && Do(REVOKING, CommitRefresh(2)) == OVERTAKEN
  {
    var v := Do(REVOKING, CommitRefresh(2));
    assert v.tokens.Keys == {0, 1} && v.tokens[0] == FIRST.(revoked := true) && v.tokens[1] == SECOND;
    assert v.tokens == OVERTAKEN.tokens;
    assert v.calls.Keys == {3} && v.calls[3] == REVOKING.calls[3];
    assert v.calls == OVERTAKEN.calls;
  }

  lemma NothingLeftToRevoke()
    ensures Enabled(OVERTAKEN, RevokeRow(3, 0)) && Do(OVERTAKEN, RevokeRow(3, 0)) == VISITED
  {
    var v := Do(OVERTAKEN, RevokeRow(3, 0));
    assert v.calls[3].todo == {} && v.calls[3].done == {};
    assert v.calls == VISITED.calls;
  }

  lemma ResetCommits()
    ensures Enabled(VISITED, CommitReset(3)) && Do(VISITED, CommitReset(3)) == SURVIVED
  {
    var u := Do(VISITED, CommitReset(3));
    assert u.tokens == SURVIVED.tokens;
    assert u.users == SURVIVED.users && u.mails == SURVIVED.mails && u.calls == map[];
  }

  lemma HalfWay()
    ensures Reached(INSERTED)
  {
    LogIn();
    TokenConsumed();
    ThenTwo(LOGGED_IN, BeginRefresh(2, 0), ConsumeToken(2));
    SuccessorInserted();
    ThenTwo(CONSUMED, CheckHolder(2), InsertSuccessor(2, 1));
  }

  lemma Overtaken()
    ensures Reached(OVERTAKEN)
  {
    HalfWay();
    MailConsumed();
    ThenTwo(INSERTED, BeginReset(3, 0, NEW), ConsumeMail(3));
    FirstTokenFound();
    ThenTwo(RESETTING, UpdatePassword(3), StartRevoking(3));
    RefreshOvertakes();
    Then(REVOKING, CommitRefresh(2));
  }

  lemma SurvivedTokens()
    ensures LiveTokensOf(SURVIVED, USER) == {1}
  {
  }

  /** The refresh commits, the reset finds the old token revoked, and commits too: the password is the new
      one, and a session that goes back to the old one is live. */
  lemma OldSessionSurvives()
    ensures Reached(SURVIVED)
    ensures SURVIVED.users[USER].password == NEW
    ensures LiveTokensOf(SURVIVED, USER) == {1} && SURVIVED.tokens[1].origin.password == OLD
  {
    Overtaken();
    NothingLeftToRevoke();
    Then(OVERTAKEN, RevokeRow(3, 0));
    ResetCommits();
    Then(VISITED, CommitReset(3));
    SurvivedTokens();
  }
}
