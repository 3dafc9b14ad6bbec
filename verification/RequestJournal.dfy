/**
 What a reader of the rows can rely on in every run, rejected saves included: a request only moves
 forward, a notice says what the rows say, and the audit log counts what happened.
 */
module RequestJournal {
  import opened Requests
  import opened RequestInvariants
  import opened RequestSweep

  // ----- a request only moves forward -----

  function Rank(status: RequestStatus): nat {
    match status
    case Draft => 0
    case Open => 1
    case PartiallyFilled => 2
    case Filled => 3
    case Expired => 3
    case Cancelled => 4
    case Completed => 4
  }

  predicate Advances(before: RequestStatus, after: RequestStatus) {
    before == after || Rank(before) < Rank(after)
  }

  ghost predicate Forward(s: Store, t: Store) {
    && |s.requests| <= |t.requests|
    && forall r :: 0 <= r < |s.requests| ==> Advances(s.requests[r].status, t.requests[r].status)
  }

  // ----- a notice says what the rows say -----

  predicate Fits(notice: Notice, status: InterestStatus) {
    match notice
    case SelectedNotice => status == Selected
    case NotSelectedNotice => status == NotSelected
    case ExpiredNotice => status == InterestStatus.Expired
    case CancelledNotice => status == InterestStatus.Expired
  }

  predicate TrueOf(s: Store, d: Dispatch)
    requires s.Linked()
  {
    && d.interest < |s.interests|
    && Fits(d.notice, s.interests[d.interest].status)
    && (d.notice == CancelledNotice ==> s.requests[s.interests[d.interest].request].status == Cancelled)
  }

  ghost predicate Truthful(s: Store)
    requires s.Linked()
  {
    forall d :: d in s.dispatches ==> TrueOf(s, d)
  }

  lemma TruthfulWith(s: Store, t: Store, news: multiset<Dispatch>)
    requires s.Linked() && t.Linked() && Truthful(s) && Evolves(s, t) && Forward(s, t)
    requires t.dispatches == s.dispatches + news
    requires forall d :: d in news ==> TrueOf(t, d)
    ensures Truthful(t)
  {
    forall d | d in t.dispatches ensures TrueOf(t, d) {
      if d in s.dispatches {
        assert TrueOf(s, d);
        assert InterestEvolves(s.interests[d.interest], t.interests[d.interest]);
        var r := s.interests[d.interest].request;
        assert Advances(s.requests[r].status, t.requests[r].status);
      }
    }
  }

  // ----- the audit log counts what happened -----

  /** How often an event must be in the log. The two endings are left out: a request that stays
      partially filled is closed again and again. */
  function Expected(s: Store, event: AuditEvent): nat {
    match event
    case RequestPublished(r) => if r < |s.requests| then 1 else 0
    case InterestApplied(i) => if i < |s.interests| then 1 else 0
    case InterestSelected(i) => if i in s.conversations then 1 else 0
    case InterestWithdrawn(i) => if i < |s.interests| && s.interests[i].status == Withdrawn then 1 else 0
    case RequestCancelled(r) => if r < |s.requests| && s.requests[r].status == Cancelled then 1 else 0
    case _ => 0
  }

  predicate IsEnding(event: AuditEvent) {
    event.RequestClosedManually? || event.RequestExpired?
  }

  ghost predicate Journaled(s: Store) {
    forall event :: !IsEnding(event) ==> multiset(s.audit)[event] == Expected(s, event)
  }

  lemma JournaledWith(s: Store, t: Store, news: seq<AuditEvent>)
    requires Journaled(s) && t.audit == s.audit + news
    requires forall event :: !IsEnding(event) ==> Expected(t, event) == Expected(s, event) + multiset(news)[event]
    ensures Journaled(t)
  {
    forall event | !IsEnding(event) ensures multiset(t.audit)[event] == Expected(t, event) {
      assert multiset(t.audit) == multiset(s.audit) + multiset(news);
      assert multiset(s.audit)[event] == Expected(s, event);
    }
  }

  /** A row whose status changes to something that is not journaled. */
  lemma SameExpected(s: Store, t: Store)
    requires |t.requests| == |s.requests| && |t.interests| == |s.interests| && t.conversations == s.conversations
    requires forall i :: 0 <= i < |s.interests| ==>
              (t.interests[i].status == Withdrawn <==> s.interests[i].status == Withdrawn)
    requires forall r :: 0 <= r < |s.requests| ==>
              (t.requests[r].status == Cancelled <==> s.requests[r].status == Cancelled)
    ensures forall event :: Expected(t, event) == Expected(s, event)
  {
  }

  // ----- each call -----

  ghost predicate Told(s: Store)
    requires s.Linked()
  {
    Truthful(s) && Journaled(s)
  }

  lemma NoticesNamed(interests: set<nat>, notice: Notice, d: Dispatch)
    ensures d in Notices(interests, notice) <==> d.interest in interests && d.notice == notice
  {
    var named := set j | j in interests :: Dispatch(j, notice);
    assert d in Notices(interests, notice) <==> d in named;
    assert d.interest in interests && d.notice == notice ==> d == Dispatch(d.interest, notice);
  }

  /** A new request, or a new interest, and the event that says so. */
  lemma RowAdded(s: Store, t: Store, event: AuditEvent)
    requires s.Linked() && t.Linked() && Told(s) && Evolves(s, t) && Forward(s, t)
    requires t.dispatches == s.dispatches && t.conversations == s.conversations && t.audit == s.audit + [event]
    requires forall i :: 0 <= i < |s.interests| ==> t.interests[i] == s.interests[i]
    requires forall r :: 0 <= r < |s.requests| ==> t.requests[r] == s.requests[r]
    requires (event == RequestPublished(|s.requests|) && |t.requests| == |s.requests| + 1
              && t.requests[|s.requests|].status == Open && |t.interests| == |s.interests|)
          || (event == InterestApplied(|s.interests|) && |t.interests| == |s.interests| + 1
              && t.interests[|s.interests|].status == Applied && |t.requests| == |s.requests|)
    ensures Told(t)
  {
    TruthfulWith(s, t, multiset{});
    JournaledWith(s, t, [event]);
  }

  lemma PublishTells(s: Store, form: NewRequest, premium: bool, now: Time)
    requires Consistent(s) && Told(s)
    ensures var t := Publish(s, form, premium, now).store; t.Linked() && Told(t) && Forward(s, t)
  {
    var e := Publish(s, form, premium, now);
    if e.outcome == Done {
      PublishKeeps(s, form, premium, now);
      RowAdded(s, e.store, RequestPublished(|s.requests|));
    }
  }

  lemma ApplyTells(s: Store, r: nat, professional: int, message: string)
    requires Consistent(s) && Told(s)
    ensures var t := Apply(s, r, professional, message).store; t.Linked() && Told(t) && Forward(s, t)
  {
    var e := Apply(s, r, professional, message);
    if e.outcome == Done {
      ApplyKeeps(s, r, professional, message);
      RowAdded(s, e.store, InterestApplied(|s.interests|));
    }
  }

  lemma WithdrawTells(s: Store, i: nat)
    requires Consistent(s) && Told(s)
    ensures var t := Withdraw(s, i).store; t.Linked() && Told(t) && Forward(s, t)
  {
    var t := Withdraw(s, i).store;
    WithdrawKeeps(s, i);
    if t != s {
      TruthfulWith(s, t, multiset{});
      JournaledWith(s, t, [InterestWithdrawn(i)]);
    }
  }

  lemma FinalizeTells(s: Store, r: nat, final: InterestStatus, notice: Notice)
    requires s.Linked() && Told(s) && r < |s.requests| && Fits(notice, final)
    requires notice == CancelledNotice ==> s.requests[r].status == Cancelled
    ensures var t := FinalizeRemaining(s, r, final, notice); t.Linked() && Told(t) && Forward(s, t)
  {
    var t := FinalizeRemaining(s, r, final, notice);
    FinalizeEvolves(s, r, final, notice);
    forall d | d in Notices(AppliedIn(s, r), notice) ensures TrueOf(t, d) {
      NoticesNamed(AppliedIn(s, r), notice, d);
    }
    TruthfulWith(s, t, Notices(AppliedIn(s, r), notice));
    SameExpected(s, t);
    JournaledWith(s, t, []);
  }

  /** A request is saved, and the log says so where it must. */
  lemma RewriteTells(s: Store, t: Store, r: nat, news: seq<AuditEvent>)
    requires s.Linked() && Told(s) && r < |s.requests| && |t.requests| == |s.requests|
    requires t == s.(requests := s.requests[r := t.requests[r]], audit := s.audit + news)
    requires SameTerms(s.requests[r], t.requests[r]) && Advances(s.requests[r].status, t.requests[r].status)
    requires if s.requests[r].status != Cancelled && t.requests[r].status == Cancelled
             then news == [RequestCancelled(r)]
             else |news| == 0 || (|news| == 1 && IsEnding(news[0]))
    ensures t.Linked() && Told(t) && Forward(s, t)
  {
    TruthfulWith(s, t, multiset{});
    JournaledWith(s, t, news);
  }

  lemma ChosenTells(s: Store, i: nat)
    requires s.Linked() && Told(s) && i < |s.interests| && s.interests[i].status == Applied
    ensures Chosen(s, i).Linked() && Told(Chosen(s, i)) && Forward(s, Chosen(s, i))
  {
    var t := Chosen(s, i);
    TruthfulWith(s, t, multiset{});
    SameExpected(s, t);
    JournaledWith(s, t, []);
  }

  lemma WithChatTells(s: Store, i: nat)
    requires s.Linked() && Told(s) && i < |s.interests| && s.interests[i].status == Selected && i !in s.conversations
    ensures WithChat(s, i).Linked() && Told(WithChat(s, i)) && Forward(s, WithChat(s, i))
  {
    TruthfulWith(s, WithChat(s, i), multiset{Dispatch(i, SelectedNotice)});
    JournaledWith(s, WithChat(s, i), [InterestSelected(i)]);
  }

  lemma SettledTells(s: Store, i: nat)
    requires s.Linked() && Told(s) && MaySelect(s, i)
    ensures Settled(s, i).Linked() && Told(Settled(s, i)) && Settled(s, i).requests == s.requests
  {
    ChosenTells(s, i);
    FinalizeTells(Chosen(s, i), s.interests[i].request, NotSelected, NotSelectedNotice);
  }

  /** A selection whose save went through, from the settled interests on. */
  lemma SavedSelectionTells(s: Store, i: nat, saved: Request)
    requires Consistent(s) && Told(s) && MaySelect(s, i)
    requires SameTerms(s.requests[s.interests[i].request], saved) && saved.status in {PartiallyFilled, Filled}
    ensures var t := WithChat(Settled(s, i).(requests := s.requests[s.interests[i].request := saved]), i);
            t.Linked() && Told(t) && Forward(s, t)
  {
    var r := s.interests[i].request;
    var next := Settled(s, i).(requests := s.requests[r := saved]);
    SettledTells(s, i);
    assert next.audit == Settled(s, i).audit + [];
    RewriteTells(Settled(s, i), next, r, []);
    SettledKeeps(s, i);
    WithChatTells(next, i);
  }

  lemma SelectTells(s: Store, i: nat, now: Time)
    requires Consistent(s) && Told(s)
    ensures var t := Select(s, i, now).store; t.Linked() && Told(t) && Forward(s, t)
  {
    SelectKeeps(s, i, now);
    if MaySelect(s, i) {
      SettledTells(s, i);
      if Select(s, i, now).outcome == Done {
        var r := s.interests[i].request;
        var saved := Select(s, i, now).store.requests[r];
        SavedSelectionTells(s, i, saved);
        assert WithChat(Settled(s, i).(requests := s.requests[r := saved]), i) == Select(s, i, now).store;
      }
    }
  }

  lemma CloseOutTells(s: Store, r: nat, now: Time, event: AuditEvent)
    requires s.Linked() && Told(s) && r < |s.requests| && Accepting(s.requests[r].status) && IsEnding(event)
    ensures var t := CloseOut(s, r, now, event).store; t.Linked() && Told(t) && Forward(s, t)
  {
    var t, ending := CloseOut(s, r, now, event).store, EndingOf(s, r);
    var mid := FinalizeRemaining(s, r, ending.interests, ending.notice);
    FinalizeTells(s, r, ending.interests, ending.notice);
    if t != mid {
      RewriteTells(mid, t, r, [event]);
    }
  }

  lemma CancelTells(s: Store, r: nat, reason: string, now: Time)
    requires s.Linked() && Told(s)
    ensures var t := Cancel(s, r, reason, now).store; t.Linked() && Told(t) && Forward(s, t)
  {
    var e := Cancel(s, r, reason, now);
    if e.outcome == Done {
      var mid := s.(requests := e.store.requests, audit := e.store.audit);
      RewriteTells(s, mid, r, [RequestCancelled(r)]);
      FinalizeTells(mid, r, InterestStatus.Expired, CancelledNotice);
      var t := FinalizeRemaining(mid, r, InterestStatus.Expired, CancelledNotice);
      assert e.store == t;
      assert Told(t) && Forward(s, t);
    }
  }

  lemma ForwardTransitive(a: Store, b: Store, c: Store)
    requires Forward(a, b) && Forward(b, c)
    ensures Forward(a, c)
  {
    forall r | 0 <= r < |a.requests| ensures Advances(a.requests[r].status, c.requests[r].status) {
      assert Advances(a.requests[r].status, b.requests[r].status) &&
          Advances(b.requests[r].status, c.requests[r].status);
    }
  }

  lemma {:induction false} SweepTells(s: Store, due: seq<nat>, now: Time)
    requires Consistent(s) && Told(s) && SomeDue(s, due, now)
    ensures var t := Sweep(s, due, now).store; t.Linked() && Told(t) && Forward(s, t)
  {
    if |due| > 0 {
      var front, r := due[..|due| - 1], due[|due| - 1];
      var before := Sweep(s, front, now);
      BlockedInFrontOrLast(s, due, now);
      SweepTells(s, front, now);
      SweepKeeps(s, front, now);
      if before.outcome != SaveRejected {
        SweepIsPartialMap(s, front, now);
        assert before.store.requests[r] == s.requests[r];
        CloseOutTells(before.store, r, now, RequestExpired(r));
        ForwardTransitive(s, before.store, Sweep(s, due, now).store);
      }
    }
  }

  lemma StepTells(s: Store, step: Step)
    requires Consistent(s) && Told(s) && Possible(s, step)
    ensures var t := Exec(s, step).store; t.Linked() && Told(t) && Forward(s, t)
  {
    var e := Exec(s, step);
    match step
    case DoPublish(form, premium, now) =>
      assert e == Publish(s, form, premium, now);
      PublishTells(s, form, premium, now);
    case DoApply(r, professional, message) =>
      assert e == Apply(s, r, professional, message);
      ApplyTells(s, r, professional, message);
    case DoSelect(i, now) =>
      assert e == Select(s, i, now);
      SelectTells(s, i, now);
    case DoWithdraw(i) =>
      assert e == Withdraw(s, i);
      WithdrawTells(s, i);
    case DoClose(r, now) =>
      assert e == CloseNow(s, r, now);
      if r < |s.requests| && Accepting(s.requests[r].status) { CloseOutTells(s, r, now, RequestClosedManually(r)); }
    case DoCancel(r, reason, now) =>
      assert e == Cancel(s, r, reason, now);
      CancelTells(s, r, reason, now);
    case DoSweep(due, now) =>
      assert e == Sweep(s, due, now);
      SweepTells(s, due, now);
  }

  // ----- whole runs -----

  lemma StepOfRunTells(h: History, k: nat)
    requires h.IsRun() && k < |h.steps| && Consistent(h.stores[k]) && Told(h.stores[k])
    ensures h.stores[k + 1].Linked() && Told(h.stores[k + 1]) && Forward(h.stores[k], h.stores[k + 1])
  {
    assert h.Follows(k);
    var e := Exec(h.stores[k], h.steps[k]);
    StepTells(h.stores[k], h.steps[k]);
    assert Told(e.store);
  }

  lemma EmptyIsTold()
    ensures EMPTY.Linked() && Told(EMPTY)
  {
  }

  lemma {:induction false} RunTells(h: History, k: nat)
    requires h.IsRun() && k < |h.stores|
    ensures h.stores[k].Linked() && Told(h.stores[k])
  {
    if k == 0 {
      EmptyIsTold();
    } else {
      RunTells(h, k - 1);
      RunStaysConsistent(h, k - 1);
      StepOfRunTells(h, k - 1);
    }
  }

  /** In every run a dispatch tells the professional the status the interest has, then and ever after;
      a cancellation is announced only for a request that is cancelled. */
  lemma NoticesAreTrue(h: History, j: nat, k: nat, d: Dispatch)
    requires h.IsRun() && j <= k < |h.stores| && d in h.stores[j].dispatches
    ensures var s := h.stores[k];
            && d in s.dispatches && d.interest < |s.interests|
            && Fits(d.notice, s.interests[d.interest].status)
            && s.interests[d.interest].request < |s.requests|
            && (d.notice == CancelledNotice ==> s.requests[s.interests[d.interest].request].status == Cancelled)
  {
    RunIsConsistent(h, j, k);
    RunTells(h, k);
    assert TrueOf(h.stores[k], d);
  }

  /** In every run the log holds each publication, application, withdrawal and cancellation exactly
      once, and one selection for each conversation. */
  lemma LogIsExact(h: History, k: nat, event: AuditEvent)
    requires h.IsRun() && k < |h.stores| && !IsEnding(event)
    ensures multiset(h.stores[k].audit)[event] == Expected(h.stores[k], event)
  {
    RunTells(h, k);
  }

  /** In every run the status of a request only moves forward, so a request that stopped accepting
      interests never accepts one again. */
  lemma {:induction false} StatusMovesForward(h: History, j: nat, k: nat)
    requires h.IsRun() && j <= k < |h.stores|
    ensures Forward(h.stores[j], h.stores[k])
    decreases k
  {
    if j < k {
      StatusMovesForward(h, j, k - 1);
      RunStaysConsistent(h, k - 1);
      RunTells(h, k - 1);
      StepOfRunTells(h, k - 1);
      ForwardTransitive(h.stores[j], h.stores[k - 1], h.stores[k]);
    }
  }
}
