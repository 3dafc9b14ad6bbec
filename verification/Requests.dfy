/**
 Service requests and the interests professionals express in them: the rows, the checks that every
 save repeats, and what each service call does to the store.

 Each call is one atomic step at one instant `now`; the code takes no lock and opens no transaction.
 A request or an interest is named by its position in its table, so ids grow with creation.
 A save that raises after other rows were already written is the outcome `SaveRejected`; the store
 that comes with it holds exactly the writes made before the exception.
 */
module Requests {
  import opened Wrappers

  type Time = int // microseconds

  const MINUTE: Time := 60_000_000
  const HOUR: Time := 60 * MINUTE
  const DAY: Time := 24 * HOUR

  const DUPLICATE_WINDOW: Time := 5 * MINUTE
  const QUOTA_WINDOW: Time := 30 * DAY
  const FREE_MONTHLY_REQUEST_LIMIT := 5
  const MAX_POSITIONS := 32767
  const MAX_REASON := 255
  const MAX_TITLE := 150
  const MAX_LABEL := 150
  const MAX_BUDGET_CENTS := 99_999_999
  const MAX_MESSAGE := 280

  datatype InterestWindow = TwoHours | FiveHours | OneDay | ThreeDays

  function Duration(window: InterestWindow): Time {
    match window
    case TwoHours => 2 * HOUR
    case FiveHours => 5 * HOUR
    case OneDay => 24 * HOUR
    case ThreeDays => 3 * DAY
  }

  datatype RequestStatus = Draft | Open | PartiallyFilled | Filled | Expired | Cancelled | Completed

  datatype InterestStatus = Applied | Shortlisted | Selected | NotSelected | Withdrawn | Expired

  /** The columns that only have field checks; a budget is in cents. */
  datatype Details = Details(title: string, description: string, locationLabel: string, budget: Option<int>)

  datatype Request = Request(
    client: int,
    category: int,
    details: Details,
    positions: int,
    scheduledStart: Time,
    window: InterestWindow,
    publishedAt: Time,
    expiresAt: Time,
    status: RequestStatus,
    closedAt: Option<Time>,
    cancelReason: string)

  /** The message column holds no more than its length. */
  type Message = m: string | |m| <= MAX_MESSAGE

  datatype Interest = Interest(request: nat, professional: int, message: Message, status: InterestStatus)

  /** The four notifications that tell a professional how an interest ended. */
  datatype Notice = SelectedNotice | NotSelectedNotice | ExpiredNotice | CancelledNotice

  datatype Dispatch = Dispatch(interest: nat, notice: Notice)

  datatype AuditEvent =
    | RequestPublished(request: nat)
    | InterestApplied(interest: nat)
    | InterestSelected(interest: nat)
    | InterestWithdrawn(interest: nat)
    | RequestClosedManually(request: nat)
    | RequestCancelled(request: nat)
    | RequestExpired(request: nat)

  datatype Store = Store(
    requests: seq<Request>,
    interests: seq<Interest>,
    conversations: set<nat>,
    dispatches: multiset<Dispatch>,
    audit: seq<AuditEvent>)
  {
    /** The foreign key from interests to requests. */
    predicate Linked() {
      forall i :: 0 <= i < |interests| ==> interests[i].request < |requests|
    }
  }

  const EMPTY := Store([], [], {}, multiset{}, [])

  datatype Refusal =
    | NotFound | NotOpen | NotApplied | AlreadyClosed | NotCancellable
    | InvalidFields | WindowTooLong | DuplicateOpen | QuotaReached | AlreadyApplied

  datatype Outcome =
    | Done
    | Returned(count: nat)
    | Refused(why: Refusal)
    | SaveRejected

  datatype Effect = Effect(store: Store, outcome: Outcome)

  predicate Accepting(status: RequestStatus) {
    status == Open || status == PartiallyFilled
  }

  /** The interests of request `r` that have a given status. */
  function WithStatus(interests: seq<Interest>, r: nat, status: InterestStatus): set<nat> {
    set i: nat | i < |interests| && interests[i].request == r && interests[i].status == status
  }

  function SelectedIn(s: Store, r: nat): set<nat> {
    WithStatus(s.interests, r, Selected)
  }

  function AppliedIn(s: Store, r: nat): set<nat> {
    WithStatus(s.interests, r, Applied)
  }

  // ----- the checks of ServiceRequest.clean -----

  predicate FieldsValid(req: Request) {
    1 <= req.positions <= MAX_POSITIONS && |req.cancelReason| <= MAX_REASON && DetailsFit(req.details)
  }

  predicate DetailsFit(d: Details) {
    && 0 < |d.title| <= MAX_TITLE && 0 < |d.description| && |d.locationLabel| <= MAX_LABEL
    && (d.budget.Some? ==> -MAX_BUDGET_CENTS <= d.budget.value <= MAX_BUDGET_CENTS)
  }

  predicate WindowFits(req: Request) {
    req.publishedAt + Duration(req.window) <= req.scheduledStart
  }

  /** Another accepting request of the same client and category, published under five minutes ago.
      `self` is the row being saved, or -1 for a row that has no id yet. */
  predicate HasRecentSibling(requests: seq<Request>, self: int, req: Request, now: Time) {
    exists k :: 0 <= k < |requests| && k != self && IsRecentSibling(requests[k], req, now)
  }

  predicate IsRecentSibling(other: Request, req: Request, now: Time) {
    && other.client == req.client
    && other.category == req.category
    && Accepting(other.status)
    && other.publishedAt >= now - DUPLICATE_WINDOW
  }

  predicate SavePasses(requests: seq<Request>, self: int, req: Request, now: Time) {
    FieldsValid(req) && WindowFits(req) && !HasRecentSibling(requests, self, req, now)
  }

  /** The requests the free quota counts for a client at `now`. */
  function CountedForQuota(requests: seq<Request>, client: int, now: Time): set<nat> {
    set k: nat | k < |requests| && requests[k].client == client
                 && requests[k].publishedAt >= now - QUOTA_WINDOW && requests[k].status != Draft
  }

  predicate MayPublish(requests: seq<Request>, client: int, premium: bool, now: Time) {
    premium || |CountedForQuota(requests, client, now)| < FREE_MONTHLY_REQUEST_LIMIT
  }

  // ----- publishing and applying -----

  datatype NewRequest = NewRequest(
    client: int, category: int, details: Details, positions: int, scheduledStart: Time, window: InterestWindow)

  function Opened(form: NewRequest, now: Time): Request {
    Request(form.client, form.category, form.details, form.positions, form.scheduledStart, form.window,
            now, now + Duration(form.window), Open, None, "")
  }

  function Publish(s: Store, form: NewRequest, premium: bool, now: Time): Effect {
    var req := Opened(form, now);
    if !FieldsValid(req) then
      Effect(s, Refused(InvalidFields))
    else if !WindowFits(req) then
      Effect(s, Refused(WindowTooLong))
    else if HasRecentSibling(s.requests, -1, req, now) then
      Effect(s, Refused(DuplicateOpen))
    else if !MayPublish(s.requests, form.client, premium, now) then
      Effect(s, Refused(QuotaReached))
    else
      Effect(s.(requests := s.requests + [req], audit := s.audit + [RequestPublished(|s.requests|)]), Done)
  }

  predicate HasApplied(interests: seq<Interest>, r: nat, professional: int) {
    exists i :: 0 <= i < |interests| && interests[i].request == r && interests[i].professional == professional
  }

  function Apply(s: Store, r: nat, professional: int, message: string): Effect {
    if r >= |s.requests| then
      Effect(s, Refused(NotFound))
    else if |message| > MAX_MESSAGE then
      Effect(s, Refused(InvalidFields))
    else if !Accepting(s.requests[r].status) then
      Effect(s, Refused(NotOpen))
    else if HasApplied(s.interests, r, professional) then
      Effect(s, Refused(AlreadyApplied))
    else
      Effect(s.(interests := s.interests + [Interest(r, professional, message, Applied)],
                audit := s.audit + [InterestApplied(|s.interests|)]), Done)
  }

  // ----- what happens to the interests that are left -----

  function Finalized(interests: seq<Interest>, r: nat, final: InterestStatus): seq<Interest> {
    seq(|interests|, i requires 0 <= i < |interests| =>
      if interests[i].request == r && interests[i].status == Applied
      then interests[i].(status := final)
      else interests[i])
  }

  /** One dispatch per interest. */
  function Notices(interests: set<nat>, notice: Notice): multiset<Dispatch> {
    multiset(set i | i in interests :: Dispatch(i, notice))
  }

  function FinalizeRemaining(s: Store, r: nat, final: InterestStatus, notice: Notice): Store {
    s.(interests := Finalized(s.interests, r, final),
       dispatches := s.dispatches + Notices(AppliedIn(s, r), notice))
  }

  // ----- selecting and withdrawing -----

  function Select(s: Store, i: nat, now: Time): Effect
    requires s.Linked()
  {
    if i >= |s.interests| then
      Effect(s, Refused(NotFound))
    else
      var r := s.interests[i].request;
      var req := s.requests[r];
      if !Accepting(req.status) then
        Effect(s, Refused(NotOpen))
      else if s.interests[i].status != Applied then
        Effect(s, Refused(NotApplied))
      else
        var chosen := s.(interests := s.interests[i := s.interests[i].(status := Selected)]);
        var full := |SelectedIn(chosen, r)| >= req.positions;
        var settled := if full then FinalizeRemaining(chosen, r, NotSelected, NotSelectedNotice) else chosen;
        var saved := if full then req.(status := Filled, closedAt := Some(now)) else req.(status := PartiallyFilled);
        if !SavePasses(s.requests, r, saved, now) then
          Effect(settled, SaveRejected)
        else
          Effect(settled.(requests := s.requests[r := saved],
                          conversations := s.conversations + {i},
                          dispatches := settled.dispatches + multiset{Dispatch(i, SelectedNotice)},
                          audit := s.audit + [InterestSelected(i)]), Done)
  }

  function Withdraw(s: Store, i: nat): Effect
    requires s.Linked()
  {
    if i >= |s.interests| then
      Effect(s, Refused(NotFound))
    else if s.interests[i].status != Applied then
      Effect(s, Refused(NotApplied))
    else if !Accepting(s.requests[s.interests[i].request].status) then
      Effect(s, Refused(NotOpen)) // Interest.clean runs again on this save
    else
      Effect(s.(interests := s.interests[i := s.interests[i].(status := Withdrawn)],
                audit := s.audit + [InterestWithdrawn(i)]), Done)
  }

  // ----- ending a request -----

  datatype Ending = Ending(status: RequestStatus, interests: InterestStatus, notice: Notice)

  /** How a request ends when its window is over, given how many interests were selected. */
  function EndingFor(selected: nat, positions: int): Ending {
    if selected >= positions && positions > 0 then
      Ending(Filled, NotSelected, NotSelectedNotice)
    else if selected > 0 then
      Ending(PartiallyFilled, NotSelected, NotSelectedNotice)
    else
      Ending(RequestStatus.Expired, InterestStatus.Expired, ExpiredNotice)
  }

  function EndingOf(s: Store, r: nat): Ending
    requires r < |s.requests|
  {
    EndingFor(|SelectedIn(s, r)|, s.requests[r].positions)
  }

  function Ended(s: Store, r: nat, now: Time): Request
    requires r < |s.requests|
  {
    s.requests[r].(status := EndingOf(s, r).status, closedAt := Some(now))
  }

  /** The shared body of the manual close and of one round of the sweep. */
  function CloseOut(s: Store, r: nat, now: Time, event: AuditEvent): Effect
    requires r < |s.requests|
  {
    var settled := FinalizeRemaining(s, r, EndingOf(s, r).interests, EndingOf(s, r).notice);
    if !SavePasses(s.requests, r, Ended(s, r, now), now) then
      Effect(settled, SaveRejected)
    else
      Effect(settled.(requests := s.requests[r := Ended(s, r, now)], audit := s.audit + [event]), Done)
  }

  function CloseNow(s: Store, r: nat, now: Time): Effect {
    if r >= |s.requests| then
      Effect(s, Refused(NotFound))
    else if !Accepting(s.requests[r].status) then
      Effect(s, Refused(AlreadyClosed))
    else
      CloseOut(s, r, now, RequestClosedManually(r))
  }

  function Cancel(s: Store, r: nat, reason: string, now: Time): Effect {
    if r >= |s.requests| then
      Effect(s, Refused(NotFound))
    else if s.requests[r].status == Cancelled || s.requests[r].status == Completed then
      Effect(s, Refused(NotCancellable))
    else
      var saved := s.requests[r].(status := Cancelled, cancelReason := reason, closedAt := Some(now));
      if !SavePasses(s.requests, r, saved, now) then
        Effect(s, SaveRejected) // the save comes before any interest is written
      else
        var settled := FinalizeRemaining(s, r, InterestStatus.Expired, CancelledNotice);
        Effect(settled.(requests := s.requests[r := saved], audit := s.audit + [RequestCancelled(r)]), Done)
  }

  // ----- the periodic sweep -----

  predicate Due(req: Request, now: Time) {
    Accepting(req.status) && req.expiresAt <= now
  }

  /** `due` is a possible answer of the query for due requests: each of them once, in some order. */
  predicate IsDueList(s: Store, due: seq<nat>, now: Time) {
    && (forall k :: 0 <= k < |due| ==> due[k] < |s.requests| && Due(s.requests[due[k]], now))
    && (forall j, k :: 0 <= j < k < |due| ==> due[j] != due[k])
    && (forall r: nat {:trigger r in due} :: r < |s.requests| && Due(s.requests[r], now) ==> r in due)
  }

  /** The sweep over the requests of `due`, front to back; a rejected save stops it. */
  function Sweep(s: Store, due: seq<nat>, now: Time): (e: Effect)
    requires forall k :: 0 <= k < |due| ==> due[k] < |s.requests|
    ensures |e.store.requests| == |s.requests|
    ensures e.outcome == SaveRejected || e.outcome == Returned(|due|)
  {
    if |due| == 0 then
      Effect(s, Returned(0))
    else
      var before := Sweep(s, due[..|due| - 1], now);
      if before.outcome == SaveRejected then
        before
      else
        var r := due[|due| - 1];
        var e := CloseOut(before.store, r, now, RequestExpired(r));
        if e.outcome == SaveRejected then e else Effect(e.store, Returned(|due|))
  }

  // ----- runs -----

  datatype Step =
    | DoPublish(form: NewRequest, premium: bool, now: Time)
    | DoApply(request: nat, professional: int, message: string)
    | DoSelect(interest: nat, now: Time)
    | DoWithdraw(interest: nat)
    | DoClose(request: nat, now: Time)
    | DoCancel(request: nat, reason: string, now: Time)
    | DoSweep(due: seq<nat>, now: Time)

  /** The only steps that cannot be taken are sweeps over something other than the due requests. */
  predicate Possible(s: Store, step: Step) {
    step.DoSweep? ==> IsDueList(s, step.due, step.now)
  }

  function Exec(s: Store, step: Step): Effect
    requires s.Linked() && Possible(s, step)
  {
    match step
    case DoPublish(form, premium, now) => Publish(s, form, premium, now)
    case DoApply(r, professional, message) => Apply(s, r, professional, message)
    case DoSelect(i, now) => Select(s, i, now)
    case DoWithdraw(i) => Withdraw(s, i)
    case DoClose(r, now) => CloseNow(s, r, now)
    case DoCancel(r, reason, now) => Cancel(s, r, reason, now)
    case DoSweep(due, now) => Sweep(s, due, now)
  }

  /** A history: the stores it goes through, and the steps between them. */
  datatype History = History(stores: seq<Store>, steps: seq<Step>) {
    /** A run from the empty store. */
    ghost predicate IsRun() {
      && |stores| == |steps| + 1
      && stores[0] == EMPTY
      && forall k :: 0 <= k < |steps| ==> Follows(k)
    }

    ghost predicate Follows(k: nat)
      requires |stores| == |steps| + 1
      requires k < |steps|
    {
      && stores[k].Linked() && Possible(stores[k], steps[k])
      && stores[k + 1] == Exec(stores[k], steps[k]).store
    }

    function Last(): Store
      requires |stores| > 0
    {
      stores[|stores| - 1]
    }
  }
}
