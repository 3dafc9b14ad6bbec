/** A concrete run in which a rejected save lets a request with one position select two interests. */
module RequestOverfill {
  import opened Wrappers
  import opened Requests
  import opened RequestInvariants
  import opened RequestCounts

  const FORM := NewRequest(1, 1, Details("Pintor", "Sala", "", None), 1, 10 * DAY, TwoHours)

  /** Publish two requests of one client and category ten minutes apart. Five minutes have not passed
      since the second one when the first selects; the save is rejected, the interest stays selected.
      Later the first request selects another interest. */
  const STEPS := [
    DoPublish(FORM, false, 0),
    DoPublish(FORM, false, 10 * MINUTE),
    DoApply(0, 100, ""),
    DoSelect(0, 11 * MINUTE),
    DoApply(0, 200, ""),
    DoSelect(1, 20 * MINUTE)
  ]

  const FIRST := Opened(FORM, 0)
  const SECOND := Opened(FORM, 10 * MINUTE)
  const AUDIT := [RequestPublished(0), RequestPublished(1), InterestApplied(0)]

  const S1 := Store([FIRST], [], {}, multiset{}, [RequestPublished(0)])
  const S2 := Store([FIRST, SECOND], [], {}, multiset{}, [RequestPublished(0), RequestPublished(1)])
  const S3 := Store([FIRST, SECOND], [Interest(0, 100, "", Applied)], {}, multiset{}, AUDIT)
  const S4 := Store([FIRST, SECOND], [Interest(0, 100, "", Selected)], {}, multiset{}, AUDIT)
  const S5 := Store([FIRST, SECOND], [Interest(0, 100, "", Selected), Interest(0, 200, "", Applied)], {}, multiset{},
                    AUDIT + [InterestApplied(1)])
  const S6 := Store([FIRST.(status := Filled, closedAt := Some(20 * MINUTE)), SECOND],
                    [Interest(0, 100, "", Selected), Interest(0, 200, "", Selected)], {1},
                    multiset{Dispatch(1, SelectedNotice)}, AUDIT + [InterestApplied(1), InterestSelected(1)])

  lemma SelectionRejected()
    ensures Select(S3, 0, 11 * MINUTE) == Effect(S4, SaveRejected)
  {
    assert IsRecentSibling(S3.requests[1], FIRST, 11 * MINUTE);
    var chosen := Chosen(S3, 0);
    assert SelectedIn(chosen, 0) == {0} && AppliedIn(chosen, 0) == {};
    assert chosen.interests == S4.interests;
    assert Finalized(chosen.interests, 0, NotSelected) == chosen.interests;
    NoNotices(NotSelectedNotice);
    var saved := FIRST.(status := Filled, closedAt := Some(11 * MINUTE));
    assert IsRecentSibling(S3.requests[1], saved, 11 * MINUTE);
  }

  lemma NoNotices(notice: Notice)
    ensures Notices({}, notice) == multiset{}
  {
    assert (set i | i in {} :: Dispatch(i, notice)) == {};
  }

  lemma SecondSelected()
    ensures Select(S5, 1, 20 * MINUTE) == Effect(S6, Done)
  {
    var chosen := Chosen(S5, 1);
    assert SelectedIn(chosen, 0) == {0, 1} && AppliedIn(chosen, 0) == {};
    assert chosen.interests == S6.interests;
    assert Finalized(chosen.interests, 0, NotSelected) == chosen.interests;
    NoNotices(NotSelectedNotice);
  }

  lemma FirstStepsRun()
    ensures Publish(EMPTY, FORM, false, 0) == Effect(S1, Done)
    ensures Publish(S1, FORM, false, 10 * MINUTE) == Effect(S2, Done)
    ensures Apply(S2, 0, 100, "") == Effect(S3, Done)
    ensures Apply(S4, 0, 200, "") == Effect(S5, Done)
  {
    assert CountedForQuota(EMPTY.requests, 1, 0) == {};
    assert CountedForQuota(S1.requests, 1, 10 * MINUTE) == {0};
    assert EMPTY.requests + [FIRST] == S1.requests && EMPTY.audit + [RequestPublished(0)] == S1.audit;
    assert S1.requests + [SECOND] == S2.requests && S1.audit + [RequestPublished(1)] == S2.audit;
    assert S2.interests + [Interest(0, 100, "", Applied)] == S3.interests &&
        S2.audit + [InterestApplied(0)] == S3.audit;
    assert S4.interests + [Interest(0, 200, "", Applied)] == S5.interests;
  }

  const RUN := History([EMPTY, S1, S2, S3, S4, S5, S6], STEPS)

  lemma EveryStepFollows(k: nat)
    requires k < |STEPS|
    ensures |RUN.stores| == |RUN.steps| + 1 && RUN.Follows(k)
  {
    var s, step := RUN.stores[k], STEPS[k];
    assert s.Linked() && Possible(s, step);
    if k == 3 {
      SelectionRejected();
      assert Exec(s, step) == Select(S3, 0, 11 * MINUTE);
    } else if k == 5 {
      SecondSelected();
      assert Exec(s, step) == Select(S5, 1, 20 * MINUTE);
    } else {
      FirstStepsRun();
      assert Exec(s, step) == if k == 0 then Publish(EMPTY, FORM, false, 0)
                              else if k == 1 then Publish(S1, FORM, false, 10 * MINUTE)
                              else if k == 2 then Apply(S2, 0, 100, "")
                              else Apply(S4, 0, 200, "");
    }
  }

  /** The run ends with a filled request of one position and two selected interests, of which only
      the second was told. */
  lemma RejectedSelectionOverfills()
    ensures RUN.IsRun()
    ensures var last := RUN.Last();
            && last.requests[0].status == Filled && last.requests[0].positions == 1
            && SelectedIn(last, 0) == {0, 1}
            && !Sound(last) && !Announced(last)
  {
    forall k: nat | k < |STEPS| ensures RUN.Follows(k) {
      EveryStepFollows(k);
    }
    assert SelectedIn(S6, 0) == {0, 1};
    assert |{0, 1}| == 2;
    assert !SoundAt(S6, 0);
    assert !AnnouncedAt(S6, 0);
  }

  lemma OnlyTheFirstIsRejected(k: nat)
    requires k < |STEPS|
    ensures RUN.stores[k].Linked() && Possible(RUN.stores[k], STEPS[k])
    ensures RejectsSelection(RUN.stores[k], STEPS[k], 0) <==> k == 3
  {
    EveryStepFollows(k);
    if k == 3 { SelectionRejected(); }
    if k == 5 { SecondSelected(); }
  }

  /** The bound on selected interests is met: one rejected selection, one position, two selected. */
  lemma BoundIsReached()
    ensures RUN.IsRun() && RejectedSelections(RUN, |STEPS|, 0) == 1
    ensures SelectedCount(RUN.Last(), 0) == RUN.Last().requests[0].positions + RejectedSelections(RUN, |STEPS|, 0)
  {
    RejectedSelectionOverfills();
    for k := 0 to |STEPS|
      invariant RejectedSelections(RUN, k, 0) == if k > 3 then 1 else 0
    {
      OnlyTheFirstIsRejected(k);
      assert RUN.Follows(k);
    }
  }
}
