/**
 What each request call answers and leaves behind, told on the rows: statuses, counts and times, with the
 numbers of the product written out. Nothing here goes through the functions that the calls are made of.
 */
module RequestLaws {
  import opened Wrappers
  import opened Requests
  import opened RequestInvariants
  import opened RequestSweep

  // ----- the rows -----

  /** The interests of `r` that have been selected. */
  function Picked(s: Store, r: nat): set<nat> {
    set i: nat | i < |s.interests| && s.interests[i].request == r && s.interests[i].status == Selected
  }

  predicate Waiting(x: Interest, r: nat) {
    x.request == r && x.status == Applied
  }

  predicate TakesInterests(req: Request) {
    req.status == Open || req.status == PartiallyFilled
  }

  /** The client has another such request of the category, published within the last five minutes. */
  ghost predicate PublishedTwice(s: Store, self: int, client: int, category: int, now: Time) {
    exists k :: 0 <= k < |s.requests| && k != self
                && s.requests[k].client == client && s.requests[k].category == category
                && TakesInterests(s.requests[k]) && now - 300_000_000 <= s.requests[k].publishedAt
  }

  /** The interests waiting for `r` end as `final`, and no other interest changes. */
  ghost predicate WaitingEnd(s: Store, t: Store, r: nat, final: InterestStatus) {
    && |t.interests| == |s.interests|
    && forall i :: 0 <= i < |s.interests| ==>
         t.interests[i] == if Waiting(s.interests[i], r) then s.interests[i].(status := final) else s.interests[i]
  }

  /** They are told so, once each, and nobody else is told anything. */
  ghost predicate WaitingTold(s: Store, t: Store, r: nat, notice: Notice) {
    forall d: Dispatch :: t.dispatches[d] == s.dispatches[d]
      + if d.interest < |s.interests| && Waiting(s.interests[d.interest], r) && d.notice == notice then 1 else 0
  }

  /** Only the row of `r` was rewritten. */
  ghost predicate OnlyRequest(s: Store, t: Store, r: nat, req: Request) {
    r < |s.requests| && t.requests == s.requests[r := req]
  }

  lemma PublishedTwiceIsSibling(s: Store, self: int, req: Request, now: Time)
    ensures HasRecentSibling(s.requests, self, req, now) <==> PublishedTwice(s, self, req.client, req.category, now)
  {
    forall k | 0 <= k < |s.requests|
      ensures IsRecentSibling(s.requests[k], req, now) <==>
                s.requests[k].client == req.client && s.requests[k].category == req.category
                && TakesInterests(s.requests[k]) && now - 300_000_000 <= s.requests[k].publishedAt
    {
    }
    if HasRecentSibling(s.requests, self, req, now) {
      var k :| 0 <= k < |s.requests| && k != self && IsRecentSibling(s.requests[k], req, now);
    }
    if PublishedTwice(s, self, req.client, req.category, now) {
      var k :| 0 <= k < |s.requests| && k != self && s.requests[k].client == req.client
               && s.requests[k].category == req.category && TakesInterests(s.requests[k])
               && now - 300_000_000 <= s.requests[k].publishedAt;
      assert IsRecentSibling(s.requests[k], req, now);
    }
  }

  lemma PickedIsSelected(s: Store, r: nat)
    ensures Picked(s, r) == SelectedIn(s, r)
  {
  }

  lemma FinalizeEnds(s: Store, r: nat, final: InterestStatus, notice: Notice)
    ensures WaitingEnd(s, FinalizeRemaining(s, r, final, notice), r, final)
    ensures WaitingTold(s, FinalizeRemaining(s, r, final, notice), r, notice)
  {
    var t := FinalizeRemaining(s, r, final, notice);
    forall d: Dispatch
      ensures t.dispatches[d] == s.dispatches[d]
                + if d.interest < |s.interests| && Waiting(s.interests[d.interest], r) && d.notice == notice
                  then 1 else 0
    {
      OneNoticeEach(AppliedIn(s, r), notice, d);
    }
  }

  lemma OneNoticeEach(interests: set<nat>, notice: Notice, d: Dispatch)
    ensures Notices(interests, notice)[d] == if d.interest in interests && d.notice == notice then 1 else 0
  {
    var named := set j | j in interests :: Dispatch(j, notice);
    assert Notices(interests, notice) == multiset(named);
    assert d in named <==> d.interest in interests && d.notice == notice;
  }

  // ----- publishing -----

  /** Hours for which interests are taken. */
  function Hours(window: InterestWindow): int {
    match window
    case TwoHours => 2
    case FiveHours => 5
    case OneDay => 24
    case ThreeDays => 72
  }

  predicate FormFits(form: NewRequest) {
    && 1 <= form.positions <= 32767
    && 1 <= |form.details.title| <= 150 && 1 <= |form.details.description| && |form.details.locationLabel| <= 150
    && (form.details.budget.Some? ==> -99_999_999 <= form.details.budget.value <= 99_999_999)
  }

  /** The requests of the client that are not drafts and were published within the last 30 days. */
  function LastMonth(s: Store, client: int, now: Time): set<nat> {
    set k: nat | k < |s.requests| && s.requests[k].client == client && s.requests[k].status != Draft
                 && s.requests[k].publishedAt >= now - 2_592_000_000_000
  }

  /** Who may publish, and what the refusals say: the first check that fails decides, and the quota holds
      back only clients on the free plan with five requests in 30 days. */
  lemma PublishAnswer(s: Store, form: NewRequest, premium: bool, now: Time)
    ensures var outcome := Publish(s, form, premium, now).outcome;
            var fits := now + Hours(form.window) * 3_600_000_000 <= form.scheduledStart;
            var twice := PublishedTwice(s, -1, form.client, form.category, now);
            && (outcome == Refused(InvalidFields) <==> !FormFits(form))
            && (outcome == Refused(WindowTooLong) <==> FormFits(form) && !fits)
            && (outcome == Refused(DuplicateOpen) <==> FormFits(form) && fits && twice)
            && (outcome == Refused(QuotaReached) <==>
                  FormFits(form) && fits && !twice && !premium && |LastMonth(s, form.client, now)| >= 5)
            && (outcome == Done <==>
                  FormFits(form) && fits && !twice && (premium || |LastMonth(s, form.client, now)| < 5))
  {
    PublishedTwiceIsSibling(s, -1, Opened(form, now), now);
    assert LastMonth(s, form.client, now) == CountedForQuota(s.requests, form.client, now);
  }

  /** What a publication adds: one open request as the form says, taking interests until its window ends. */
  lemma PublishedRow(s: Store, form: NewRequest, premium: bool, now: Time)
    ensures var e := Publish(s, form, premium, now);
            && (e.outcome != Done ==> e.store == s)
            && (e.outcome == Done ==>
                  && |e.store.requests| == |s.requests| + 1
                  && (forall k :: 0 <= k < |s.requests| ==> e.store.requests[k] == s.requests[k])
                  && (e.store == s.(requests := e.store.requests, audit := s.audit + [RequestPublished(|s.requests|)]))
                  && var req := e.store.requests[|s.requests|];
                     && req.client == form.client && req.category == form.category && req.details == form.details
                     && req.positions == form.positions && req.scheduledStart == form.scheduledStart
                     && req.window == form.window && req.publishedAt == now
                     && req.expiresAt == now + Hours(form.window) * 3_600_000_000
                     && req.status == Open && req.closedAt == None && req.cancelReason == "")
  {
  }

  /** In every run: with a form that fits and no other request of the last five minutes, a publication goes
      through exactly for premium clients and for those with fewer than five requests in 30 days. */
  lemma PublicationsInRuns(h: History, k: nat)
    requires h.IsRun() && k < |h.steps| && h.steps[k].DoPublish? && h.Follows(k)
    ensures var s, step := h.stores[k], h.steps[k];
            var outcome := Exec(s, step).outcome;
            && (FormFits(step.form) && step.now + Hours(step.form.window) * 3_600_000_000 <= step.form.scheduledStart
                && !PublishedTwice(s, -1, step.form.client, step.form.category, step.now) ==>
                  if step.premium || |LastMonth(s, step.form.client, step.now)| < 5
                  then outcome == Done && |h.stores[k + 1].requests| == |s.requests| + 1
                  else outcome == Refused(QuotaReached) && h.stores[k + 1] == s)
            && (step.premium ==> outcome != Refused(QuotaReached))
  {
    var s, step := h.stores[k], h.steps[k];
    var e := Exec(s, step);
    assert e == Publish(s, step.form, step.premium, step.now);
    PublishAnswer(s, step.form, step.premium, step.now);
    PublishedRow(s, step.form, step.premium, step.now);
  }

  // ----- applying and withdrawing -----

  lemma ApplyAnswer(s: Store, r: nat, professional: int, message: string)
    ensures var e := Apply(s, r, professional, message);
            var again := exists i :: 0 <= i < |s.interests| && s.interests[i].request == r
                                     && s.interests[i].professional == professional;
            && (e.outcome == Refused(NotFound) <==> r >= |s.requests|)
            && (e.outcome == Refused(InvalidFields) <==> r < |s.requests| && |message| > 280)
            && (e.outcome == Refused(NotOpen) <==>
                  r < |s.requests| && |message| <= 280 && !TakesInterests(s.requests[r]))
            && (e.outcome == Refused(AlreadyApplied) <==>
                  r < |s.requests| && |message| <= 280 && TakesInterests(s.requests[r]) && again)
            && (e.outcome == Done <==>
                  r < |s.requests| && |message| <= 280 && TakesInterests(s.requests[r]) && !again)
            && (e.outcome != Done ==> e.store == s)
            && (e.outcome == Done ==>
                  e.store == s.(interests := s.interests + [Interest(r, professional, message, Applied)],
                                audit := s.audit + [InterestApplied(|s.interests|)]))
  {
  }

  lemma WithdrawAnswer(s: Store, i: nat)
    requires s.Linked()
    ensures var e := Withdraw(s, i);
            && (e.outcome == Refused(NotFound) <==> i >= |s.interests|)
            && (i < |s.interests| ==>
                  var x := s.interests[i];
                  && (e.outcome == Refused(NotApplied) <==> x.status != Applied)
                  && (e.outcome == Refused(NotOpen) <==> x.status == Applied && !TakesInterests(s.requests[x.request]))
                  && (e.outcome == Done <==> x.status == Applied && TakesInterests(s.requests[x.request]))
                  && (e.outcome == Done ==>
                        e.store == s.(interests := s.interests[i := x.(status := Withdrawn)],
                                      audit := s.audit + [InterestWithdrawn(i)])))
            && (e.outcome != Done ==> e.store == s)
  {
  }

  // ----- selecting -----

  /** Who may be selected, and when the save is rejected. */
  lemma SelectAnswer(s: Store, i: nat, now: Time)
    requires Consistent(s)
    ensures var outcome := Select(s, i, now).outcome;
            && (outcome == Refused(NotFound) <==> i >= |s.interests|)
            && (i < |s.interests| ==>
                  var x, req := s.interests[i], s.requests[s.interests[i].request];
                  var twice := PublishedTwice(s, x.request, req.client, req.category, now);
                  && (outcome == Refused(NotOpen) <==> !TakesInterests(req))
                  && (outcome == Refused(NotApplied) <==> TakesInterests(req) && x.status != Applied)
                  && (outcome == SaveRejected <==> TakesInterests(req) && x.status == Applied && twice)
                  && (outcome == Done <==> TakesInterests(req) && x.status == Applied && !twice))
            && (outcome.Refused? ==> Select(s, i, now).store == s)
  {
    if MaySelect(s, i) {
      var r := s.interests[i].request;
      SelectRejectedIff(s, i, now);
      PublishedTwiceIsSibling(s, r, s.requests[r], now);
    }
  }

  /** The interests after a selection, rejected or not: the chosen one is selected, and if that was the last
      position, those still waiting are turned down. */
  ghost predicate InterestsAfterSelection(s: Store, t: Store, i: nat, last: bool)
    requires i < |s.interests|
  {
    && |t.interests| == |s.interests|
    && forall j :: 0 <= j < |s.interests| ==>
         t.interests[j] == if j == i then s.interests[i].(status := Selected)
                           else if last && Waiting(s.interests[j], s.interests[i].request)
                           then s.interests[j].(status := NotSelected)
                           else s.interests[j]
  }

  /** Those turned down are told so once, and the chosen one that it was selected if the save went through. */
  ghost predicate ToldAfterSelection(s: Store, t: Store, i: nat, last: bool, saved: bool)
    requires i < |s.interests|
  {
    forall d: Dispatch :: t.dispatches[d] == s.dispatches[d]
      + (if last && d.interest < |s.interests| && d.interest != i
            && Waiting(s.interests[d.interest], s.interests[i].request) && d.notice == NotSelectedNotice then 1 else 0)
      + (if saved && d == Dispatch(i, SelectedNotice) then 1 else 0)
  }

  lemma SettledEffect(s: Store, i: nat)
    requires Consistent(s) && MaySelect(s, i)
    ensures var last := |Picked(s, s.interests[i].request)| + 1 >= s.requests[s.interests[i].request].positions;
            && InterestsAfterSelection(s, Settled(s, i), i, last)
            && ToldAfterSelection(s, Settled(s, i), i, last, false)
            && Settled(s, i).requests == s.requests && Settled(s, i).conversations == s.conversations
            && Settled(s, i).audit == s.audit
            && (last <==>
                  |SelectedIn(Chosen(s, i), s.interests[i].request)| >= s.requests[s.interests[i].request].positions)
  {
    var r, chosen, t := s.interests[i].request, Chosen(s, i), Settled(s, i);
    PickedIsSelected(s, r);
    SelectionCounts(s, i);
    FinalizeEnds(chosen, r, NotSelected, NotSelectedNotice);
    forall j | 0 <= j < |s.interests|
      ensures Waiting(chosen.interests[j], r) <==> j != i && Waiting(s.interests[j], r)
    {
    }
  }

  /** What a selection does: it fills the request exactly when the interests selected so far and this one
      make up the positions; a rejected save leaves the interests written and nothing else. */
  lemma SelectEffect(s: Store, i: nat, now: Time)
    requires Consistent(s) && i < |s.interests| && !Select(s, i, now).outcome.Refused?
    ensures var e, r := Select(s, i, now), s.interests[i].request;
            var req := s.requests[r];
            var last := |Picked(s, r)| + 1 >= req.positions;
            && InterestsAfterSelection(s, e.store, i, last)
            && ToldAfterSelection(s, e.store, i, last, e.outcome == Done)
            && (e.outcome == Done ==>
                  && OnlyRequest(s, e.store, r, if last then req.(status := Filled, closedAt := Some(now))
                                                else req.(status := PartiallyFilled))
                  && e.store.conversations == s.conversations + {i}
                  && e.store.audit == s.audit + [InterestSelected(i)])
            && (e.outcome != Done ==>
                  && e.outcome == SaveRejected && e.store.requests == s.requests
                  && e.store.conversations == s.conversations && e.store.audit == s.audit)
  {
    SettledEffect(s, i);
    SelectKeeps(s, i, now);
    var e := Select(s, i, now);
    if e.outcome == Done {
      assert e.store.dispatches == Settled(s, i).dispatches + multiset{Dispatch(i, SelectedNotice)};
      assert e.store.interests == Settled(s, i).interests;
    }
  }

  // ----- closing and sweeping -----

  /** How a request ends when `n` of its interests were selected. */
  predicate RowEnds(before: Request, after: Request, n: nat, now: Time) {
    && (n >= before.positions ==> after == before.(status := Filled, closedAt := Some(now)))
    && (0 < n < before.positions ==> after == before.(status := PartiallyFilled, closedAt := Some(now)))
    && (n == 0 ==> after == before.(status := RequestStatus.Expired, closedAt := Some(now)))
  }

  /** Somebody was selected: those still waiting were not. Nobody was: their interest expired. */
  predicate InterestEnds(before: Interest, after: Interest, n: nat) {
    && (n > 0 ==> after == before.(status := NotSelected))
    && (n == 0 ==> after == before.(status := InterestStatus.Expired))
  }

  predicate NoticeEnds(notice: Notice, n: nat) {
    if n > 0 then notice == NotSelectedNotice else notice == ExpiredNotice
  }

  lemma EndingByCount(s: Store, r: nat, now: Time)
    requires Consistent(s) && r < |s.requests|
    ensures RowEnds(s.requests[r], Ended(s, r, now), |Picked(s, r)|, now)
    ensures EndingOf(s, r).interests == if |Picked(s, r)| > 0 then NotSelected else InterestStatus.Expired
    ensures EndingOf(s, r).notice == if |Picked(s, r)| > 0 then NotSelectedNotice else ExpiredNotice
  {
    PickedIsSelected(s, r);
    assert RequestConsistent(s.requests[r]);
  }

  /** Who may close, and when the save is rejected. */
  lemma CloseAnswer(s: Store, r: nat, now: Time)
    requires Consistent(s)
    ensures var e := CloseNow(s, r, now);
            && (e.outcome == Refused(NotFound) <==> r >= |s.requests|)
            && (r < |s.requests| ==>
                  var req := s.requests[r];
                  && (e.outcome == Refused(AlreadyClosed) <==> !TakesInterests(req))
                  && (e.outcome == SaveRejected <==>
                        TakesInterests(req) && PublishedTwice(s, r, req.client, req.category, now))
                  && (e.outcome == Done <==>
                        TakesInterests(req) && !PublishedTwice(s, r, req.client, req.category, now)))
            && (e.outcome.Refused? ==> e.store == s)
  {
    if r < |s.requests| {
      assert RequestConsistent(s.requests[r]);
      PublishedTwiceIsSibling(s, r, s.requests[r], now);
      SiblingsIgnoreStatus(s.requests, r, s.requests[r], Ended(s, r, now), now);
    }
  }

  /** What a close does, told by the number of selected interests alone. */
  lemma CloseEffect(s: Store, r: nat, now: Time)
    requires Consistent(s) && r < |s.requests| && !CloseNow(s, r, now).outcome.Refused?
    ensures var e, n := CloseNow(s, r, now), |Picked(s, r)|;
            && WaitingEnd(s, e.store, r, if n > 0 then NotSelected else InterestStatus.Expired)
            && WaitingTold(s, e.store, r, if n > 0 then NotSelectedNotice else ExpiredNotice)
            && e.store.conversations == s.conversations
            && (e.outcome == Done ==>
                  && |e.store.requests| == |s.requests| && RowEnds(s.requests[r], e.store.requests[r], n, now)
                  && OnlyRequest(s, e.store, r, e.store.requests[r])
                  && e.store.audit == s.audit + [RequestClosedManually(r)])
            && (e.outcome != Done ==>
                  e.outcome == SaveRejected && e.store.requests == s.requests && e.store.audit == s.audit)
  {
    EndingByCount(s, r, now);
    FinalizeEnds(s, r, EndingOf(s, r).interests, EndingOf(s, r).notice);
  }

  /** A request that the sweep has to end. */
  predicate Overdue(req: Request, now: Time) {
    TakesInterests(req) && req.expiresAt <= now
  }

  function OverdueRequests(s: Store, now: Time): set<nat> {
    set r: nat | r < |s.requests| && Overdue(s.requests[r], now)
  }

  lemma OverdueIsDue(s: Store, now: Time)
    ensures OverdueRequests(s, now) == DueSet(s, now)
  {
  }

  /** What is told about interest `d.interest` when the requests of `ended` end. */
  predicate ToldBySweep(s: Store, ended: set<nat>, d: Dispatch)
    requires s.Linked()
  {
    && d.interest < |s.interests|
    && var x := s.interests[d.interest];
       x.status == Applied && x.request in ended && NoticeEnds(d.notice, |Picked(s, x.request)|)
  }

  lemma {:induction false} SweepTells(s: Store, due: seq<nat>, now: Time)
    requires Consistent(s) && SomeDue(s, due, now) && Sweep(s, due, now).outcome != SaveRejected
    ensures forall d: Dispatch :: Sweep(s, due, now).store.dispatches[d]
              == s.dispatches[d] + if ToldBySweep(s, Elements(due), d) then 1 else 0
  {
    if |due| > 0 {
      var front, r := due[..|due| - 1], due[|due| - 1];
      var before := Sweep(s, front, now).store;
      BlockedInFrontOrLast(s, due, now);
      SweepTells(s, front, now);
      SweepIsPartialMap(s, front, now);
      RoundTells(s, before, Elements(front), r, now);
    }
  }

  lemma RoundTells(s: Store, t: Store, done: set<nat>, r: nat, now: Time)
    requires Consistent(s) && SweptTo(s, t, done, done, now)
    requires r in DueSet(s, now) && r !in done
    ensures forall d: Dispatch :: CloseOut(t, r, now, RequestExpired(r)).store.dispatches[d]
              == t.dispatches[d] + (if ToldBySweep(s, done + {r}, d) then 1 else 0)
                 - (if ToldBySweep(s, done, d) then 1 else 0)
  {
    SelectedUntouched(s, t, done, done, now, r);
    EndingByCount(s, r, now);
    FinalizeEnds(t, r, EndingOf(t, r).interests, EndingOf(t, r).notice);
    forall i | 0 <= i < |s.interests| && s.interests[i].request == r ensures t.interests[i] == s.interests[i] {
      assert t.interests[i] == EndedInterests(s, done)[i];
    }
    forall i | 0 <= i < |s.interests| ensures t.interests[i].request == s.interests[i].request {
      assert t.interests[i] == EndedInterests(s, done)[i];
    }
  }

  /** When a sweep is rejected, and how many requests it ends otherwise. */
  lemma SweepAnswer(s: Store, due: seq<nat>, now: Time)
    requires Consistent(s) && IsDueList(s, due, now)
    ensures var e := Sweep(s, due, now);
            && (e.outcome == SaveRejected <==>
                  exists r :: r in OverdueRequests(s, now)
                              && PublishedTwice(s, r, s.requests[r].client, s.requests[r].category, now))
            && (e.outcome != SaveRejected ==> e.outcome == Returned(|OverdueRequests(s, now)|))
  {
    SweepIsMap(s, due, now);
    OverdueIsDue(s, now);
    forall r | r in DueSet(s, now)
      ensures Blocked(s, r, now) <==> PublishedTwice(s, r, s.requests[r].client, s.requests[r].category, now)
    {
      PublishedTwiceIsSibling(s, r, s.requests[r], now);
    }
  }

  /** What a sweep that goes through does to every row, told by the numbers of selected interests alone. */
  lemma SweepEffect(s: Store, due: seq<nat>, now: Time)
    requires Consistent(s) && IsDueList(s, due, now) && Sweep(s, due, now).outcome != SaveRejected
    ensures var t := Sweep(s, due, now).store;
            && |t.requests| == |s.requests| && |t.interests| == |s.interests|
            && (forall r: nat :: r < |s.requests| ==>
                  if Overdue(s.requests[r], now) then RowEnds(s.requests[r], t.requests[r], |Picked(s, r)|, now)
                  else t.requests[r] == s.requests[r])
            && (forall i: nat :: i < |s.interests| ==>
                  var x := s.interests[i];
                  if x.status == Applied && Overdue(s.requests[x.request], now)
                  then InterestEnds(x, t.interests[i], |Picked(s, x.request)|)
                  else t.interests[i] == x)
            && (forall d: Dispatch :: t.dispatches[d]
                  == s.dispatches[d] + if ToldBySweep(s, OverdueRequests(s, now), d) then 1 else 0)
  {
    var t := Sweep(s, due, now).store;
    SweepIsMap(s, due, now);
    SweepTells(s, due, now);
    DueListCovers(s, due, now);
    OverdueIsDue(s, now);
    forall r: nat | r < |s.requests|
      ensures if Overdue(s.requests[r], now) then RowEnds(s.requests[r], t.requests[r], |Picked(s, r)|, now)
              else t.requests[r] == s.requests[r]
    {
      EndingByCount(s, r, now);
      assert t.requests[r] == EndedRequests(s, DueSet(s, now), now)[r];
    }
    forall i: nat | i < |s.interests|
      ensures var x := s.interests[i];
              if x.status == Applied && Overdue(s.requests[x.request], now)
              then InterestEnds(x, t.interests[i], |Picked(s, x.request)|)
              else t.interests[i] == x
    {
      EndingByCount(s, s.interests[i].request, now);
      assert t.interests[i] == EndedInterests(s, DueSet(s, now))[i];
    }
  }

  // ----- cancelling -----

  /** Any request may be cancelled that was not cancelled or completed; the save may be rejected. */
  lemma CancelAnswer(s: Store, r: nat, reason: string, now: Time)
    requires Consistent(s)
    ensures var e := Cancel(s, r, reason, now);
            && (e.outcome == Refused(NotFound) <==> r >= |s.requests|)
            && (r < |s.requests| ==>
                  var req := s.requests[r];
                  var over := req.status == Cancelled || req.status == Completed;
                  var fails := |reason| > 255 || PublishedTwice(s, r, req.client, req.category, now);
                  && (e.outcome == Refused(NotCancellable) <==> over)
                  && (e.outcome == SaveRejected <==> !over && fails)
                  && (e.outcome == Done <==> !over && !fails))
            && (e.outcome != Done ==> e.store == s)
  {
    if r < |s.requests| {
      assert RequestConsistent(s.requests[r]);
      PublishedTwiceIsSibling(s, r, s.requests[r], now);
      SiblingsIgnoreStatus(s.requests, r, s.requests[r],
                           s.requests[r].(status := Cancelled, cancelReason := reason, closedAt := Some(now)), now);
    }
  }

  lemma CancelEffect(s: Store, r: nat, reason: string, now: Time)
    requires Cancel(s, r, reason, now).outcome == Done
    ensures var t := Cancel(s, r, reason, now).store;
            && r < |s.requests|
            && OnlyRequest(s, t, r, s.requests[r].(status := Cancelled, cancelReason := reason, closedAt := Some(now)))
            && WaitingEnd(s, t, r, InterestStatus.Expired) && WaitingTold(s, t, r, CancelledNotice)
            && t.conversations == s.conversations && t.audit == s.audit + [RequestCancelled(r)]
  {
    FinalizeEnds(s, r, InterestStatus.Expired, CancelledNotice);
  }
}
