/**
 The periodic sweep as a map over the requests.

 The code walks the due requests one at a time and may stop half-way, between finalizing the
 interests of a request and saving it. Against that stand two maps that look at every row by itself:
 the due requests are ended, and the applied interests of due requests are finalized. The sweep is
 those maps, in whatever order it meets the requests, and however often it is cut and started again.
 */
module RequestSweep {
  import opened Requests
  import opened RequestInvariants

  function DueSet(s: Store, now: Time): set<nat> {
    set r: nat | r < |s.requests| && Due(s.requests[r], now)
  }

  function Elements(due: seq<nat>): set<nat> {
    set r | r in due
  }

  /** The requests of `done` ended, every other row as it was. */
  function EndedRequests(s: Store, done: set<nat>, now: Time): seq<Request> {
    seq(|s.requests|, r requires 0 <= r < |s.requests| => if r in done then Ended(s, r, now) else s.requests[r])
  }

  /** The applied interests of the requests of `done` finalized, every other row as it was. */
  function EndedInterests(s: Store, done: set<nat>): seq<Interest>
    requires s.Linked()
  {
    seq(|s.interests|, i requires 0 <= i < |s.interests| =>
      if s.interests[i].request in done && s.interests[i].status == Applied
      then s.interests[i].(status := EndingOf(s, s.interests[i].request).interests)
      else s.interests[i])
  }

  /** A sweep of `s` that has ended the requests of `done` and finalized the interests of `finalized`. */
  ghost predicate SweptTo(s: Store, t: Store, done: set<nat>, finalized: set<nat>, now: Time)
    requires s.Linked()
  {
    && done <= finalized <= DueSet(s, now)
    && t.requests == EndedRequests(s, done, now)
    && t.interests == EndedInterests(s, finalized)
  }

  // ----- what a partial sweep leaves alone -----

  lemma SelectedUntouched(s: Store, t: Store, done: set<nat>, finalized: set<nat>, now: Time, r: nat)
    requires s.Linked() && SweptTo(s, t, done, finalized, now)
    ensures SelectedIn(t, r) == SelectedIn(s, r)
    ensures r < |s.requests| ==> EndingOf(t, r) == EndingOf(s, r)
  {
    forall i: nat ensures i in SelectedIn(t, r) <==> i in SelectedIn(s, r) {
      if i < |s.interests| {
        var x := s.interests[i];
        assert t.interests[i] == if x.request in finalized && x.status == Applied
                                 then x.(status := EndingOf(s, x.request).interests) else x;
        assert EndingOf(s, x.request).interests != Selected;
      }
    }
    assert SelectedIn(t, r) == SelectedIn(s, r);
  }

  /** A request is due after its whole window, so from then on it is never the recent sibling of
      another one: ending due requests changes no save check. */
  lemma BlockingUntouched(s: Store, t: Store, done: set<nat>, finalized: set<nat>, now: Time, later: Time, r: int,
                          req: Request)
    requires Consistent(s) && SweptTo(s, t, done, finalized, now) && now <= later
    ensures HasRecentSibling(t.requests, r, req, later) <==> HasRecentSibling(s.requests, r, req, later)
  {
    forall k | 0 <= k < |s.requests|
      ensures IsRecentSibling(t.requests[k], req, later) <==> IsRecentSibling(s.requests[k], req, later)
    {
      if k in done {
        assert RequestConsistent(s.requests[k]) && Due(s.requests[k], now);
        assert t.requests[k] == Ended(s, k, now);
      }
    }
  }

  /** The save that ends `r` would be rejected. */
  predicate Blocked(s: Store, r: nat, now: Time)
    requires r < |s.requests|
  {
    HasRecentSibling(s.requests, r, s.requests[r], now)
  }

  /** The first half of a round: the interests. */
  lemma HalfRound(s: Store, t: Store, done: set<nat>, r: nat, now: Time)
    requires Consistent(s) && SweptTo(s, t, done, done, now)
    requires r in DueSet(s, now) && r !in done
    ensures SweptTo(s, FinalizeRemaining(t, r, EndingOf(t, r).interests, EndingOf(t, r).notice), done, done + {r}, now)
  {
    SelectedUntouched(s, t, done, done, now, r);
    var mid := FinalizeRemaining(t, r, EndingOf(t, r).interests, EndingOf(t, r).notice);
    forall i | 0 <= i < |s.interests| ensures mid.interests[i] == EndedInterests(s, done + {r})[i] {
      assert t.interests[i] == EndedInterests(s, done)[i];
    }
    assert mid.interests == EndedInterests(s, done + {r});
  }

  /** One round of the loop, taken from the middle of a sweep. */
  lemma OneRound(s: Store, t: Store, done: set<nat>, r: nat, now: Time)
    requires Consistent(s) && SweptTo(s, t, done, done, now)
    requires r in DueSet(s, now) && r !in done
    ensures var e := CloseOut(t, r, now, RequestExpired(r));
            && (e.outcome == SaveRejected <==> Blocked(s, r, now))
            && SweptTo(s, e.store, if e.outcome == SaveRejected then done else done + {r}, done + {r}, now)
  {
    var e := CloseOut(t, r, now, RequestExpired(r));
    HalfRound(s, t, done, r, now);
    SelectedUntouched(s, t, done, done, now, r);
    BlockingUntouched(s, t, done, done, now, now, r, s.requests[r]);
    assert t.requests[r] == s.requests[r] && RequestConsistent(s.requests[r]);
    SiblingsIgnoreStatus(t.requests, r, s.requests[r], Ended(t, r, now), now);
    if e.outcome != SaveRejected {
      assert e.store.requests == EndedRequests(s, done + {r}, now);
    }
  }

  function Expirations(due: seq<nat>): seq<AuditEvent> {
    seq(|due|, k requires 0 <= k < |due| => RequestExpired(due[k]))
  }

  /** Requests that are due, each at most once. */
  ghost predicate SomeDue(s: Store, due: seq<nat>, now: Time) {
    && (forall k :: 0 <= k < |due| ==> due[k] < |s.requests| && Due(s.requests[due[k]], now))
    && (forall j, k :: 0 <= j < k < |due| ==> due[j] != due[k])
  }

  ghost predicate SomeBlocked(s: Store, due: seq<nat>, now: Time)
    requires SomeDue(s, due, now)
  {
    exists k :: 0 <= k < |due| && Blocked(s, due[k], now)
  }

  lemma NothingSwept(s: Store, now: Time)
    requires s.Linked()
    ensures SweptTo(s, s, {}, {}, now)
  {
    assert EndedRequests(s, {}, now) == s.requests;
    assert EndedInterests(s, {}) == s.interests;
  }

  lemma BlockedInFrontOrLast(s: Store, due: seq<nat>, now: Time)
    requires SomeDue(s, due, now) && |due| > 0
    ensures SomeDue(s, due[..|due| - 1], now)
    ensures SomeBlocked(s, due, now) <==> SomeBlocked(s, due[..|due| - 1], now) || Blocked(s, due[|due| - 1], now)
    ensures Elements(due) == Elements(due[..|due| - 1]) + {due[|due| - 1]}
    ensures due[|due| - 1] !in Elements(due[..|due| - 1])
    ensures due[|due| - 1] in DueSet(s, now)
  {
    var front := due[..|due| - 1];
    assert forall k :: 0 <= k < |front| ==> front[k] == due[k];
  }

  lemma {:induction false} SweepIsPartialMap(s: Store, due: seq<nat>, now: Time)
    requires Consistent(s) && SomeDue(s, due, now)
    ensures var e := Sweep(s, due, now);
            && (e.outcome == SaveRejected <==> SomeBlocked(s, due, now))
            && (e.outcome != SaveRejected ==> SweptTo(s, e.store, Elements(due), Elements(due), now))
  {
    if |due| == 0 {
      NothingSwept(s, now);
      assert Elements(due) == {};
    } else {
      var front, r := due[..|due| - 1], due[|due| - 1];
      BlockedInFrontOrLast(s, due, now);
      SweepIsPartialMap(s, front, now);
      if Sweep(s, front, now).outcome != SaveRejected {
        OneRound(s, Sweep(s, front, now).store, Elements(front), r, now);
      }
    }
  }

  lemma OneMoreExpiration(audit: seq<AuditEvent>, due: seq<nat>)
    requires |due| > 0
    ensures audit + Expirations(due) == audit + Expirations(due[..|due| - 1]) + [RequestExpired(due[|due| - 1])]
  {
    assert Expirations(due) == Expirations(due[..|due| - 1]) + [RequestExpired(due[|due| - 1])];
  }

  lemma RoundAudits(s: Store, r: nat, now: Time)
    requires r < |s.requests|
    ensures var e := CloseOut(s, r, now, RequestExpired(r));
            && e.store.conversations == s.conversations
            && (e.outcome != SaveRejected ==> e.store.audit == s.audit + [RequestExpired(r)])
  {
  }

  lemma {:induction false} SweepAudits(s: Store, due: seq<nat>, now: Time)
    requires forall k :: 0 <= k < |due| ==> due[k] < |s.requests|
    requires Sweep(s, due, now).outcome != SaveRejected
    ensures Sweep(s, due, now).store.audit == s.audit + Expirations(due)
    ensures Sweep(s, due, now).store.conversations == s.conversations
  {
    if |due| > 0 {
      var front, r := due[..|due| - 1], due[|due| - 1];
      SweepAudits(s, front, now);
      RoundAudits(Sweep(s, front, now).store, r, now);
      OneMoreExpiration(s.audit, due);
    }
  }

  // ----- the sweep is the map, in any order -----

  lemma DueListCovers(s: Store, due: seq<nat>, now: Time)
    requires IsDueList(s, due, now)
    ensures Elements(due) == DueSet(s, now) && |due| == |DueSet(s, now)|
  {
    assert Elements(due) == DueSet(s, now);
    DistinctCount(due);
  }

  lemma {:induction false} DistinctCount(xs: seq<nat>)
    requires forall j, k :: 0 <= j < k < |xs| ==> xs[j] != xs[k]
    ensures |Elements(xs)| == |xs|
  {
    if |xs| > 0 {
      var front := xs[..|xs| - 1];
      DistinctCount(front);
      assert Elements(xs) == Elements(front) + {xs[|xs| - 1]};
      assert xs[|xs| - 1] !in Elements(front);
    } else {
      assert Elements(xs) == {};
    }
  }

  /** A sweep goes through exactly when no due request has a recent sibling. It then ends every due
      request and no other, finalizes their applied interests and no other, returns how many were
      due, and adds one audit event for each. None of this depends on the order of `due`. */
  lemma SweepIsMap(s: Store, due: seq<nat>, now: Time)
    requires Consistent(s) && IsDueList(s, due, now)
    ensures var e := Sweep(s, due, now);
            && (e.outcome == SaveRejected <==> exists r :: r in DueSet(s, now) && Blocked(s, r, now))
            && (e.outcome != SaveRejected ==>
                  && e.store.requests == EndedRequests(s, DueSet(s, now), now)
                  && e.store.interests == EndedInterests(s, DueSet(s, now))
                  && e.outcome == Returned(|DueSet(s, now)|)
                  && multiset(e.store.audit)
                     == multiset(s.audit) + multiset(set r | r in DueSet(s, now) :: RequestExpired(r)))
  {
    SweepIsPartialMap(s, due, now);
    DueListCovers(s, due, now);
    assert SomeBlocked(s, due, now) <==> exists r :: r in DueSet(s, now) && Blocked(s, r, now) by {
      forall k | 0 <= k < |due| ensures due[k] in DueSet(s, now) {}
      forall r | r in DueSet(s, now) ensures exists k :: 0 <= k < |due| && due[k] == r {}
    }
    if Sweep(s, due, now).outcome != SaveRejected {
      SweepAudits(s, due, now);
      ExpiredEventsOnce(due);
    }
  }

  lemma {:induction false} ExpiredEventsOnce(due: seq<nat>)
    requires forall j, k :: 0 <= j < k < |due| ==> due[j] != due[k]
    ensures multiset(Expirations(due)) == multiset(set r | r in Elements(due) :: RequestExpired(r))
  {
    if |due| == 0 {
      assert (set r | r in Elements(due) :: RequestExpired(r)) == {};
    } else {
      var front, r := due[..|due| - 1], due[|due| - 1];
      ExpiredEventsOnce(front);
      assert Expirations(due) == Expirations(front) + [RequestExpired(r)];
      var before := set q | q in Elements(front) :: RequestExpired(q);
      assert (set q | q in Elements(due) :: RequestExpired(q)) == before + {RequestExpired(r)};
      assert RequestExpired(r) !in before;
      assert multiset(before + {RequestExpired(r)}) == multiset(before) + multiset{RequestExpired(r)};
    }
  }

  /** Two orders of the same due requests. */
  lemma SweepOrderIrrelevant(s: Store, due: seq<nat>, other: seq<nat>, now: Time)
    requires Consistent(s) && IsDueList(s, due, now) && IsDueList(s, other, now)
    ensures Sweep(s, due, now).outcome == Sweep(s, other, now).outcome
    ensures Sweep(s, due, now).outcome != SaveRejected ==>
              && Sweep(s, due, now).store.requests == Sweep(s, other, now).store.requests
              && Sweep(s, due, now).store.interests == Sweep(s, other, now).store.interests
  {
    SweepIsMap(s, due, now);
    SweepIsMap(s, other, now);
  }

  // ----- cutting a sweep and starting again -----

  /** What a sweep leaves when it stops: either between two rounds, or inside a round, after the
      interests were finalized and before the request was saved. A worker that dies leaves any of
      these; a rejected save leaves one of the second kind (`RejectionIsCut`). */
  function Cut(s: Store, due: seq<nat>, k: nat, finalizedNext: bool, now: Time): Store
    requires k <= |due| && (finalizedNext ==> k < |due|)
    requires forall j :: 0 <= j < |due| ==> due[j] < |s.requests|
  {
    var before := Sweep(s, due[..k], now).store;
    if finalizedNext
    then FinalizeRemaining(before, due[k], EndingOf(before, due[k]).interests, EndingOf(before, due[k]).notice)
    else before
  }

  lemma CutIsPartialMap(s: Store, due: seq<nat>, k: nat, finalizedNext: bool, now: Time)
    requires Consistent(s) && IsDueList(s, due, now)
    requires k <= |due| && (finalizedNext ==> k < |due|)
    requires Sweep(s, due[..k], now).outcome != SaveRejected
    ensures var t := Cut(s, due, k, finalizedNext, now);
            var done := Elements(due[..k]);
            Consistent(t) && SweptTo(s, t, done, if finalizedNext then done + {due[k]} else done, now)
  {
    var before := Sweep(s, due[..k], now).store;
    SweepKeeps(s, due[..k], now);
    SweepIsPartialMap(s, due[..k], now);
    if finalizedNext {
      FinalizeKeeps(before, due[k], EndingOf(before, due[k]).interests, EndingOf(before, due[k]).notice);
      HalfRound(s, before, Elements(due[..k]), due[k], now);
    }
  }

  // ----- sweeping again, at the same instant or later -----

  /** The request has ended for good and is due no more. */
  predicate Settles(s: Store, r: nat)
    requires r < |s.requests|
  {
    EndingOf(s, r).status != PartiallyFilled
  }

  /** What is left to do at `later` after a sweep at `now` ended the requests of `done`. */
  function LeftDue(s: Store, done: set<nat>, later: Time): set<nat> {
    set r | r in DueSet(s, later) && !(r in done && Settles(s, r))
  }

  /** One uninterrupted sweep at `later`, except that the requests of `done` that ended for good keep
      the earlier closing time. */
  function Resumed(s: Store, done: set<nat>, now: Time, later: Time): seq<Request> {
    seq(|s.requests|, r requires 0 <= r < |s.requests| =>
      if r in done && Settles(s, r) then Ended(s, r, now)
      else if Due(s.requests[r], later) then Ended(s, r, later)
      else s.requests[r])
  }

  /** What a partial sweep leaves due. */
  lemma DueAfterPartial(s: Store, t: Store, done: set<nat>, finalized: set<nat>, now: Time, later: Time)
    requires Consistent(s) && SweptTo(s, t, done, finalized, now) && now <= later
    ensures DueSet(t, later) == LeftDue(s, done, later)
  {
    forall r: nat | r < |s.requests| ensures r in DueSet(t, later) <==> r in LeftDue(s, done, later) {
      assert RequestConsistent(s.requests[r]);
      assert t.requests[r] == if r in done then Ended(s, r, now) else s.requests[r];
    }
  }

  lemma RequestsAbsorbPartial(s: Store, t: Store, done: set<nat>, finalized: set<nat>, now: Time, later: Time)
    requires Consistent(s) && t.Linked() && SweptTo(s, t, done, finalized, now) && now <= later
    ensures EndedRequests(t, DueSet(t, later), later) == Resumed(s, done, now, later)
  {
    DueAfterPartial(s, t, done, finalized, now, later);
    forall r: nat | r < |s.requests|
      ensures EndedRequests(t, DueSet(t, later), later)[r] == Resumed(s, done, now, later)[r]
    {
      SelectedUntouched(s, t, done, finalized, now, r);
      assert t.requests[r] == if r in done then Ended(s, r, now) else s.requests[r];
    }
  }

  lemma InterestsAbsorbPartial(s: Store, t: Store, done: set<nat>, finalized: set<nat>, now: Time, later: Time)
    requires Consistent(s) && t.Linked() && SweptTo(s, t, done, finalized, now) && now <= later
    ensures EndedInterests(t, DueSet(t, later)) == EndedInterests(s, DueSet(s, later))
  {
    DueAfterPartial(s, t, done, finalized, now, later);
    forall i: nat | i < |s.interests|
      ensures EndedInterests(t, DueSet(t, later))[i] == EndedInterests(s, DueSet(s, later))[i]
    {
      var x := s.interests[i];
      var r := x.request;
      SelectedUntouched(s, t, done, finalized, now, r);
      assert t.interests[i] == EndedInterests(s, finalized)[i];
      assert EndingOf(s, r).interests != Applied;
    }
  }

  /** A full sweep of what a partial one left. */
  lemma SweepAfterPartial(s: Store, t: Store, done: set<nat>, finalized: set<nat>, again: seq<nat>, now: Time,
                          later: Time)
    requires Consistent(s) && Consistent(t) && SweptTo(s, t, done, finalized, now) && now <= later
    requires IsDueList(t, again, later)
    ensures var e := Sweep(t, again, later);
            && (e.outcome == SaveRejected <==> exists r :: r in LeftDue(s, done, later) && Blocked(s, r, later))
            && (e.outcome != SaveRejected ==>
                  && e.outcome == Returned(|LeftDue(s, done, later)|)
                  && e.store.requests == Resumed(s, done, now, later)
                  && e.store.interests == EndedInterests(s, DueSet(s, later)))
  {
    SweepIsMap(t, again, later);
    DueAfterPartial(s, t, done, finalized, now, later);
    RequestsAbsorbPartial(s, t, done, finalized, now, later);
    InterestsAbsorbPartial(s, t, done, finalized, now, later);
    forall r | r in LeftDue(s, done, later) ensures Blocked(t, r, later) <==> Blocked(s, r, later) {
      BlockingUntouched(s, t, done, finalized, now, later, r, s.requests[r]);
      assert t.requests[r] == if r in done then Ended(s, r, now) else s.requests[r];
      SiblingsIgnoreStatus(t.requests, r, t.requests[r], s.requests[r], later);
    }
  }

  /** Restart: cut the sweep anywhere, between two rounds or inside one, and sweep again, in any order,
      at the same instant or later. The second sweep goes through exactly when no request that is left is
      blocked then, and gives the rows of one uninterrupted sweep at its own time, except that requests
      ended for good before the cut keep the earlier closing time. */
  lemma SweepIsRestartable(s: Store, due: seq<nat>, k: nat, finalizedNext: bool, again: seq<nat>, now: Time,
                           later: Time)
    requires Consistent(s) && IsDueList(s, due, now) && now <= later
    requires k <= |due| && (finalizedNext ==> k < |due|)
    requires Sweep(s, due[..k], now).outcome != SaveRejected
    requires IsDueList(Cut(s, due, k, finalizedNext, now), again, later)
    ensures var e := Sweep(Cut(s, due, k, finalizedNext, now), again, later);
            var left := LeftDue(s, Elements(due[..k]), later);
            && (e.outcome == SaveRejected <==> exists r :: r in left && Blocked(s, r, later))
            && (e.outcome != SaveRejected ==>
                  && e.outcome == Returned(|left|)
                  && e.store.requests == Resumed(s, Elements(due[..k]), now, later)
                  && e.store.interests == EndedInterests(s, DueSet(s, later)))
  {
    var done := Elements(due[..k]);
    CutIsPartialMap(s, due, k, finalizedNext, now);
    SweepAfterPartial(s, Cut(s, due, k, finalizedNext, now), done, if finalizedNext then done + {due[k]} else done,
                      again, now, later);
  }

  /** At the same instant that is the very result of the uninterrupted sweep. */
  lemma ResumedAtOnce(s: Store, done: set<nat>, now: Time)
    requires done <= DueSet(s, now)
    ensures Resumed(s, done, now, now) == EndedRequests(s, DueSet(s, now), now)
  {
  }

  /** The sweep went through the first `k` requests and its next save is rejected. */
  ghost predicate StopsAt(s: Store, due: seq<nat>, k: nat, now: Time)
    requires IsDueList(s, due, now)
  {
    k < |due| && Sweep(s, due[..k], now).outcome != SaveRejected && Blocked(s, due[k], now)
  }

  lemma RejectedRoundIsCut(s: Store, due: seq<nat>, k: nat, now: Time)
    requires Consistent(s) && IsDueList(s, due, now) && k < |due|
    requires Sweep(s, due[..k], now).outcome != SaveRejected
    requires Sweep(s, due[..k + 1], now).outcome == SaveRejected
    ensures StopsAt(s, due, k, now)
    ensures Sweep(s, due[..k + 1], now).store == Cut(s, due, k, true, now)
  {
    assert due[..k + 1][..k] == due[..k];
    SweepIsPartialMap(s, due[..k], now);
    OneRound(s, Sweep(s, due[..k], now).store, Elements(due[..k]), due[k], now);
  }

  lemma {:induction false} RejectedPrefixIsCut(s: Store, due: seq<nat>, n: nat, now: Time) returns (k: nat)
    requires Consistent(s) && IsDueList(s, due, now)
    requires n <= |due| && Sweep(s, due[..n], now).outcome == SaveRejected
    ensures k < n && StopsAt(s, due, k, now)
    ensures Sweep(s, due[..n], now).store == Cut(s, due, k, true, now)
  {
    var front := due[..n - 1];
    assert due[..n][..n - 1] == front;
    if Sweep(s, front, now).outcome == SaveRejected {
      k := RejectedPrefixIsCut(s, due, n - 1, now);
    } else {
      k := n - 1;
      RejectedRoundIsCut(s, due, k, now);
    }
  }

  /** A rejected save is one of those cuts: after the interests of a blocked request were finalized and
      before the request was saved. */
  lemma RejectionIsCut(s: Store, due: seq<nat>, now: Time) returns (k: nat)
    requires Consistent(s) && IsDueList(s, due, now) && Sweep(s, due, now).outcome == SaveRejected
    ensures StopsAt(s, due, k, now)
    ensures Sweep(s, due, now).store == Cut(s, due, k, true, now)
  {
    assert due[..|due|] == due;
    k := RejectedPrefixIsCut(s, due, |due|, now);
  }

  /** Sweeping again at the instant of the rejection is rejected again, in whatever order. */
  lemma RejectedAgain(s: Store, due: seq<nat>, again: seq<nat>, now: Time)
    requires Consistent(s) && IsDueList(s, due, now) && Sweep(s, due, now).outcome == SaveRejected
    requires IsDueList(Sweep(s, due, now).store, again, now)
    ensures Sweep(Sweep(s, due, now).store, again, now).outcome == SaveRejected
  {
    var k := RejectionIsCut(s, due, now);
    SweepIsRestartable(s, due, k, true, again, now, now);
    assert due[k] in DueSet(s, now);
    assert due[k] !in Elements(due[..k]);
  }

  /** A sweep that was rejected, then run again later: it goes through exactly when no request that is
      left is blocked any more, and then makes up for everything. */
  lemma RejectedSweepResumes(s: Store, due: seq<nat>, again: seq<nat>, now: Time, later: Time) returns (k: nat)
    requires Consistent(s) && IsDueList(s, due, now) && Sweep(s, due, now).outcome == SaveRejected && now <= later
    requires IsDueList(Sweep(s, due, now).store, again, later)
    ensures StopsAt(s, due, k, now)
    ensures var e := Sweep(Sweep(s, due, now).store, again, later);
            var left := LeftDue(s, Elements(due[..k]), later);
            && (e.outcome == SaveRejected <==> exists r :: r in left && Blocked(s, r, later))
            && (e.outcome != SaveRejected ==>
                  && e.outcome == Returned(|left|)
                  && e.store.requests == Resumed(s, Elements(due[..k]), now, later)
                  && e.store.interests == EndedInterests(s, DueSet(s, later)))
  {
    k := RejectionIsCut(s, due, now);
    SweepIsRestartable(s, due, k, true, again, now, later);
  }

  /** Sweeping again changes no request and no interest, yet the partially filled requests are still
      due: they are swept, audited and counted every time. */
  lemma SweepRepeated(s: Store, due: seq<nat>, again: seq<nat>, now: Time)
    requires Consistent(s) && IsDueList(s, due, now)
    requires Sweep(s, due, now).outcome != SaveRejected
    requires IsDueList(Sweep(s, due, now).store, again, now)
    ensures var t := Sweep(s, due, now).store;
            var u := Sweep(t, again, now);
            var partial := set r | r in DueSet(s, now) && 0 < |SelectedIn(s, r)| < s.requests[r].positions;
            && DueSet(t, now) == partial
            && u.outcome == Returned(|partial|)
            && u.store.requests == t.requests && u.store.interests == t.interests
  {
    var t := Sweep(s, due, now).store;
    SweepIsMap(s, due, now);
    SweepKeeps(s, due, now);
    var all := DueSet(s, now);
    assert SweptTo(s, t, all, all, now);
    SweepAfterPartial(s, t, all, all, again, now, now);
    DueAfterPartial(s, t, all, all, now, now);
    ResumedAtOnce(s, all, now);
    PartialIsUnsettled(s, now);
  }

  lemma PartialIsUnsettled(s: Store, now: Time)
    requires Consistent(s)
    ensures LeftDue(s, DueSet(s, now), now)
            == set r | r in DueSet(s, now) && 0 < |SelectedIn(s, r)| < s.requests[r].positions
  {
    forall r | r in DueSet(s, now) ensures Settles(s, r) <==> !(0 < |SelectedIn(s, r)| < s.requests[r].positions) {
      assert RequestConsistent(s.requests[r]);
    }
  }
}
