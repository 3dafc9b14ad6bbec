/**
 The service calls as they run: each one changes the tables step by step, and its contract says that
 the tables and the answer are those of the step function in `Requests`.
 */
module RequestServices {
  import opened Wrappers
  import opened Requests

  class RequestService {
    var requests: seq<Request>
    var interests: seq<Interest>
    var conversations: set<nat>
    var dispatches: multiset<Dispatch>
    var audit: seq<AuditEvent>

    function State(): Store
      reads this
    {
      Store(requests, interests, conversations, dispatches, audit)
    }

    constructor ()
      ensures State() == EMPTY
    {
      requests, interests, conversations, dispatches, audit := [], [], {}, multiset{}, [];
    }

    /** ServiceRequest.save on an existing row: the checks run again, then the row is written. */
    method SaveRequest(r: nat, saved: Request, now: Time) returns (ok: bool)
      requires r < |requests|
      modifies `requests
      ensures ok == SavePasses(old(requests), r, saved, now)
      ensures requests == if ok then old(requests)[r := saved] else old(requests)
    {
      ok := SavePasses(requests, r, saved, now);
      if ok {
        requests := requests[r := saved];
      }
    }

    /** The bulk update comes first; the dispatches go out one by one afterwards. */
    method FinalizeRemainingInterests(r: nat, final: InterestStatus, notice: Notice)
      modifies `interests, `dispatches
      ensures State() == FinalizeRemaining(old(State()), r, final, notice)
    {
      var remaining := WithStatus(interests, r, Applied);
      interests := Finalized(interests, r, final);
      NotifyAll(remaining, notice);
    }

    method NotifyAll(remaining: set<nat>, notice: Notice)
      modifies `dispatches
      ensures dispatches == old(dispatches) + Notices(remaining, notice)
    {
      var pending := remaining;
      assert Notices(remaining - pending, notice) == multiset{};
      while pending != {}
        invariant pending <= remaining
        invariant dispatches == old(dispatches) + Notices(remaining - pending, notice)
        decreases pending
      {
        var i :| i in pending;
        dispatches := dispatches + multiset{Dispatch(i, notice)};
        OneMoreNotice(remaining - pending, i, notice);
        assert remaining - (pending - {i}) == (remaining - pending) + {i};
        pending := pending - {i};
      }
      assert remaining - pending == remaining;
    }

    lemma OneMoreNotice(told: set<nat>, i: nat, notice: Notice)
      requires i !in told
      ensures Notices(told + {i}, notice) == Notices(told, notice) + multiset{Dispatch(i, notice)}
    {
      var before := set j | j in told :: Dispatch(j, notice);
      assert (set j | j in told + {i} :: Dispatch(j, notice)) == before + {Dispatch(i, notice)};
      assert Dispatch(i, notice) !in before;
      assert multiset(before + {Dispatch(i, notice)}) == multiset(before) + multiset{Dispatch(i, notice)};
    }

    method PublishRequest(form: NewRequest, premium: bool, now: Time) returns (outcome: Outcome)
      modifies `requests, `audit
      ensures Effect(State(), outcome) == Publish(old(State()), form, premium, now)
    {
      var req := Opened(form, now);
      if !FieldsValid(req) {
        return Refused(InvalidFields);
      }
      if !WindowFits(req) {
        return Refused(WindowTooLong);
      }
      if HasRecentSibling(requests, -1, req, now) {
        return Refused(DuplicateOpen);
      }
      if !MayPublish(requests, form.client, premium, now) {
        return Refused(QuotaReached);
      }
      audit := audit + [RequestPublished(|requests|)];
      requests := requests + [req];
      return Done;
    }

    method ApplyTo(r: nat, professional: int, message: string) returns (outcome: Outcome)
      modifies `interests, `audit
      ensures Effect(State(), outcome) == Apply(old(State()), r, professional, message)
    {
      if r >= |requests| {
        return Refused(NotFound);
      }
      if |message| > MAX_MESSAGE {
        return Refused(InvalidFields);
      }
      if !Accepting(requests[r].status) {
        return Refused(NotOpen);
      }
      if HasApplied(interests, r, professional) {
        return Refused(AlreadyApplied);
      }
      audit := audit + [InterestApplied(|interests|)];
      interests := interests + [Interest(r, professional, message, Applied)];
      return Done;
    }

    method SelectInterest(i: nat, now: Time) returns (outcome: Outcome)
      requires State().Linked()
      modifies this
      ensures Effect(State(), outcome) == Select(old(State()), i, now)
    {
      if i >= |interests| {
        return Refused(NotFound);
      }
      var r := interests[i].request;
      var serviceRequest := requests[r];
      if !Accepting(serviceRequest.status) {
        return Refused(NotOpen);
      }
      if interests[i].status != Applied {
        return Refused(NotApplied);
      }
      interests := interests[i := interests[i].(status := Selected)];
      ghost var chosen := State();
      assert chosen.requests == old(requests) && SelectedIn(chosen, r) == WithStatus(interests, r, Selected);
      var saved: bool;
      if |WithStatus(interests, r, Selected)| >= serviceRequest.positions {
        serviceRequest := serviceRequest.(status := Filled, closedAt := Some(now));
        FinalizeRemainingInterests(r, NotSelected, NotSelectedNotice);
        assert State() == FinalizeRemaining(chosen, r, NotSelected, NotSelectedNotice);
        saved := SaveRequest(r, serviceRequest, now);
      } else {
        serviceRequest := serviceRequest.(status := PartiallyFilled);
        saved := SaveRequest(r, serviceRequest, now);
      }
      if !saved {
        return SaveRejected;
      }
      conversations := conversations + {i};
      dispatches := dispatches + multiset{Dispatch(i, SelectedNotice)};
      audit := audit + [InterestSelected(i)];
      return Done;
    }

    method WithdrawInterest(i: nat) returns (outcome: Outcome)
      requires State().Linked()
      modifies `interests, `audit
      ensures Effect(State(), outcome) == Withdraw(old(State()), i)
    {
      if i >= |interests| {
        return Refused(NotFound);
      }
      if interests[i].status != Applied {
        return Refused(NotApplied);
      }
      if !Accepting(requests[interests[i].request].status) {
        return Refused(NotOpen);
      }
      interests := interests[i := interests[i].(status := Withdrawn)];
      audit := audit + [InterestWithdrawn(i)];
      return Done;
    }

    /** The three branches of the manual close and of the sweep, and the save after them. */
    method EndRequest(r: nat, now: Time, event: AuditEvent) returns (saved: bool)
      requires r < |requests|
      modifies `requests, `interests, `dispatches, `audit
      ensures Effect(State(), if saved then Done else SaveRejected) == CloseOut(old(State()), r, now, event)
    {
      var serviceRequest := requests[r];
      var selectedCount := |WithStatus(interests, r, Selected)|;
      if selectedCount >= serviceRequest.positions && serviceRequest.positions > 0 {
        serviceRequest := serviceRequest.(status := Filled);
        FinalizeRemainingInterests(r, NotSelected, NotSelectedNotice);
      } else if selectedCount > 0 {
        serviceRequest := serviceRequest.(status := PartiallyFilled);
        FinalizeRemainingInterests(r, NotSelected, NotSelectedNotice);
      } else {
        serviceRequest := serviceRequest.(status := RequestStatus.Expired);
        FinalizeRemainingInterests(r, InterestStatus.Expired, ExpiredNotice);
      }
      serviceRequest := serviceRequest.(closedAt := Some(now));
      saved := SaveRequest(r, serviceRequest, now);
      if saved {
        audit := audit + [event];
      }
    }

    method CloseRequestNow(r: nat, now: Time) returns (outcome: Outcome)
      modifies `requests, `interests, `dispatches, `audit
      ensures Effect(State(), outcome) == CloseNow(old(State()), r, now)
    {
      if r >= |requests| {
        return Refused(NotFound);
      }
      if !Accepting(requests[r].status) {
        return Refused(AlreadyClosed);
      }
      var saved := EndRequest(r, now, RequestClosedManually(r));
      outcome := if saved then Done else SaveRejected;
    }

    method CancelRequest(r: nat, reason: string, now: Time) returns (outcome: Outcome)
      modifies `requests, `interests, `dispatches, `audit
      ensures Effect(State(), outcome) == Cancel(old(State()), r, reason, now)
    {
      if r >= |requests| {
        return Refused(NotFound);
      }
      var serviceRequest := requests[r];
      if serviceRequest.status == Cancelled || serviceRequest.status == Completed {
        return Refused(NotCancellable);
      }
      serviceRequest := serviceRequest.(status := Cancelled, cancelReason := reason, closedAt := Some(now));
      var saved := SaveRequest(r, serviceRequest, now);
      if !saved {
        return SaveRejected;
      }
      FinalizeRemainingInterests(r, InterestStatus.Expired, CancelledNotice);
      audit := audit + [RequestCancelled(r)];
      return Done;
    }

    /** `due` is what the query for due requests answered. */
    method ExpireDueRequests(due: seq<nat>, now: Time) returns (outcome: Outcome)
      requires IsDueList(State(), due, now)
      modifies `requests, `interests, `dispatches, `audit
      ensures Effect(State(), outcome) == Sweep(old(State()), due, now)
    {
      var expiredCount := 0;
      for k := 0 to |due|
        invariant expiredCount == k
        invariant |requests| == |old(requests)|
        invariant Effect(State(), Returned(k)) == Sweep(old(State()), due[..k], now)
      {
        OneMoreRound(old(State()), due, k, now);
        var saved := EndRequest(due[k], now, RequestExpired(due[k]));
        if !saved {
          RejectionStops(old(State()), due, k + 1, now);
          return SaveRejected;
        }
        expiredCount := expiredCount + 1;
      }
      assert due[..|due|] == due;
      return Returned(expiredCount);
    }

    lemma OneMoreRound(s: Store, due: seq<nat>, k: nat, now: Time)
      requires k < |due| && forall j :: 0 <= j < |due| ==> due[j] < |s.requests|
      requires Sweep(s, due[..k], now).outcome == Returned(k)
      ensures var e := CloseOut(Sweep(s, due[..k], now).store, due[k], now, RequestExpired(due[k]));
              Sweep(s, due[..k + 1], now) == if e.outcome == SaveRejected then e else Effect(e.store, Returned(k + 1))
    {
      assert due[..k + 1][..k] == due[..k];
    }

    lemma {:induction false} RejectionStops(s: Store, due: seq<nat>, k: nat, now: Time)
      requires forall j :: 0 <= j < |due| ==> due[j] < |s.requests|
      requires k <= |due| && Sweep(s, due[..k], now).outcome == SaveRejected
      ensures Sweep(s, due, now) == Sweep(s, due[..k], now)
      decreases |due| - k
    {
      if k == |due| {
        assert due[..k] == due;
      } else {
        assert due[..k + 1][..k] == due[..k];
        RejectionStops(s, due, k + 1, now);
      }
    }
  }
}
