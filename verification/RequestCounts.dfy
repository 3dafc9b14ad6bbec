/**
 What the status of a request says about its selected interests in every run, rejected saves
 included. A rejected selection leaves one interest too many; nothing else does.
 */
module RequestCounts {
  import opened Requests
  import opened RequestInvariants
  import opened RequestSweep

  function SelectedCount(s: Store, r: nat): nat {
    |SelectedIn(s, r)|
  }

  /** Filled requests have at least their positions, partially filled ones somebody, expired ones nobody. */
  predicate CountsAtLeast(req: Request, selected: nat) {
    match req.status
    case Filled => selected >= req.positions
    case PartiallyFilled => selected >= 1
    case Expired => selected == 0
    case _ => true
  }

  /** At most the positions and what rejected selections added; while the request accepts, one less. */
  predicate CountsAtMost(req: Request, selected: nat, rejected: nat) {
    selected + (if Accepting(req.status) then 1 else 0) <= req.positions + rejected
  }

  ghost predicate Bounded(s: Store, r: nat, rejected: nat)
    requires r < |s.requests|
  {
    && s.requests[r].positions >= 1
    && CountsAtLeast(s.requests[r], SelectedCount(s, r))
    && CountsAtMost(s.requests[r], SelectedCount(s, r), rejected)
  }

  /** The step selects an interest of `r`, and the save of `r` is rejected. */
  predicate RejectsSelection(s: Store, step: Step, r: nat)
    requires s.Linked() && Possible(s, step)
  {
    && step.DoSelect? && MaySelect(s, step.interest) && s.interests[step.interest].request == r
    && Exec(s, step).outcome == SaveRejected
  }

  // ----- each call -----

  lemma FinalizeBounds(s: Store, r: nat, final: InterestStatus, q: nat)
    requires final != Applied && final != Selected
    ensures WithStatus(Finalized(s.interests, r, final), q, Selected) == SelectedIn(s, q)
  {
    FinalizedFrame(s.interests, r, final);
  }

  lemma PublishBounds(s: Store, form: NewRequest, premium: bool, now: Time, r: nat, rejected: nat)
    requires s.Linked()
    requires r < |Publish(s, form, premium, now).store.requests|
    requires if r < |s.requests| then Bounded(s, r, rejected) else rejected == 0
    ensures Bounded(Publish(s, form, premium, now).store, r, rejected)
  {
    var t := Publish(s, form, premium, now).store;
    assert SelectedIn(t, r) == SelectedIn(s, r);
    if r >= |s.requests| {
      assert SelectedIn(s, r) == {};
    }
  }

  lemma ApplyBounds(s: Store, q: nat, professional: int, message: string, r: nat, rejected: nat)
    requires r < |s.requests| && Bounded(s, r, rejected)
    ensures Bounded(Apply(s, q, professional, message).store, r, rejected)
  {
    assert SelectedIn(Apply(s, q, professional, message).store, r) == SelectedIn(s, r);
  }

  lemma WithdrawBounds(s: Store, i: nat, r: nat, rejected: nat)
    requires s.Linked() && r < |s.requests| && Bounded(s, r, rejected)
    ensures Bounded(Withdraw(s, i).store, r, rejected)
  {
    assert SelectedIn(Withdraw(s, i).store, r) == SelectedIn(s, r);
  }

  lemma CloseOutBounds(s: Store, q: nat, now: Time, event: AuditEvent, r: nat, rejected: nat)
    requires q < |s.requests| && r < |s.requests| && Bounded(s, r, rejected)
    requires Accepting(s.requests[q].status)
    ensures Bounded(CloseOut(s, q, now, event).store, r, rejected)
  {
    FinalizeBounds(s, q, EndingOf(s, q).interests, r);
  }

  lemma CancelBounds(s: Store, q: nat, reason: string, now: Time, r: nat, rejected: nat)
    requires r < |s.requests| && Bounded(s, r, rejected)
    ensures Bounded(Cancel(s, q, reason, now).store, r, rejected)
  {
    FinalizeBounds(s, q, InterestStatus.Expired, r);
  }

  lemma SelectBounds(s: Store, i: nat, now: Time, r: nat, rejected: nat)
    requires Consistent(s) && r < |s.requests| && Bounded(s, r, rejected)
    ensures var e := Select(s, i, now);
            Bounded(e.store, r, if MaySelect(s, i) && s.interests[i].request == r && e.outcome == SaveRejected
                                then rejected + 1 else rejected)
  {
    if MaySelect(s, i) {
      SelectionCounts(s, i);
      FinalizeBounds(Chosen(s, i), s.interests[i].request, NotSelected, r);
      assert SelectedIn(Select(s, i, now).store, r) == SelectedIn(Chosen(s, i), r);
    }
  }

  lemma {:induction false} SweepBounds(s: Store, due: seq<nat>, now: Time, r: nat, rejected: nat)
    requires Consistent(s) && SomeDue(s, due, now) && r < |s.requests| && Bounded(s, r, rejected)
    ensures Bounded(Sweep(s, due, now).store, r, rejected)
  {
    if |due| > 0 {
      var front, q := due[..|due| - 1], due[|due| - 1];
      var before := Sweep(s, front, now);
      BlockedInFrontOrLast(s, due, now);
      SweepBounds(s, front, now, r, rejected);
      if before.outcome != SaveRejected {
        SweepIsPartialMap(s, front, now);
        assert before.store.requests[q] == s.requests[q];
        CloseOutBounds(before.store, q, now, RequestExpired(q), r, rejected);
      }
    }
  }

  // ----- whole runs -----

  function RejectedSelections(h: History, k: nat, r: nat): nat
    requires h.IsRun() && k <= |h.steps|
  {
    if k == 0 then 0
    else
      assert h.Follows(k - 1);
      RejectedSelections(h, k - 1, r) + if RejectsSelection(h.stores[k - 1], h.steps[k - 1], r) then 1 else 0
  }

  lemma StepBounds(s: Store, step: Step, r: nat, rejected: nat)
    requires Consistent(s) && Possible(s, step) && r < |Exec(s, step).store.requests|
    requires if r < |s.requests| then Bounded(s, r, rejected) else rejected == 0
    ensures var e := Exec(s, step);
            Bounded(e.store, r, if RejectsSelection(s, step, r) then rejected + 1 else rejected)
  {
    var e := Exec(s, step);
    match step
    case DoPublish(form, premium, now) =>
      assert e == Publish(s, form, premium, now);
      PublishBounds(s, form, premium, now, r, rejected);
    case DoApply(q, professional, message) =>
      assert e == Apply(s, q, professional, message);
      ApplyBounds(s, q, professional, message, r, rejected);
    case DoSelect(i, now) =>
      assert e == Select(s, i, now);
      SelectBounds(s, i, now, r, rejected);
    case DoWithdraw(i) =>
      assert e == Withdraw(s, i);
      WithdrawBounds(s, i, r, rejected);
    case DoClose(q, now) =>
      assert e == CloseNow(s, q, now);
      if q < |s.requests| && Accepting(s.requests[q].status) {
        CloseOutBounds(s, q, now, RequestClosedManually(q), r, rejected);
      }
    case DoCancel(q, reason, now) =>
      assert e == Cancel(s, q, reason, now);
      CancelBounds(s, q, reason, now, r, rejected);
    case DoSweep(due, now) =>
      assert e == Sweep(s, due, now);
      SweepBounds(s, due, now, r, rejected);
  }

  lemma {:induction false} NothingRejectedYet(h: History, k: nat, r: nat)
    requires h.IsRun() && k <= |h.steps| && r >= |h.stores[k].requests|
    ensures RejectedSelections(h, k, r) == 0
  {
    if k > 0 {
      RunIsConsistent(h, k - 1, k);
      RunIsConsistent(h, k - 1, k - 1);
      NothingRejectedYet(h, k - 1, r);
      assert h.Follows(k - 1);
    }
  }

  /** In every run the status bounds the selected interests from below, and from above by the positions
      and one more for every rejected selection of that request. */
  lemma {:induction false} SelectedWithinBounds(h: History, k: nat, r: nat)
    requires h.IsRun() && k < |h.stores| && r < |h.stores[k].requests|
    ensures CountsAtLeast(h.stores[k].requests[r], SelectedCount(h.stores[k], r))
    ensures CountsAtMost(h.stores[k].requests[r], SelectedCount(h.stores[k], r), RejectedSelections(h, k, r))
    ensures Bounded(h.stores[k], r, RejectedSelections(h, k, r))
  {
    if k == 0 {
      assert false;
    } else {
      var s := h.stores[k - 1];
      RunIsConsistent(h, k - 1, k - 1);
      if r < |s.requests| {
        SelectedWithinBounds(h, k - 1, r);
      } else {
        NothingRejectedYet(h, k - 1, r);
      }
      assert h.Follows(k - 1);
      StepBounds(s, h.steps[k - 1], r, RejectedSelections(h, k - 1, r));
    }
  }
}
