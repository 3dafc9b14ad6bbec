/**
 When exactly the duplicate check rejects a status save. Publication keeps the accepting requests of
 one client and category more than five minutes apart, so only the newest of them can stand in the
 way, it can only stand in the way of older ones, and never for longer than five minutes.
 */
module RequestSiblings {
  import opened Requests
  import opened RequestInvariants
  import opened RequestJournal
  import opened RequestSweep

  predicate Siblings(a: Request, b: Request) {
    a.client == b.client && a.category == b.category && Accepting(a.status) && Accepting(b.status)
  }

  ghost predicate Apart(s: Store) {
    forall a, b :: 0 <= a < b < |s.requests| && Siblings(s.requests[a], s.requests[b]) ==>
      s.requests[a].publishedAt + DUPLICATE_WINDOW < s.requests[b].publishedAt
  }

  /** Requests that only move forward do not become siblings again. */
  lemma ForwardKeepsApart(s: Store, t: Store)
    requires Apart(s) && Evolves(s, t) && Forward(s, t) && |t.requests| == |s.requests|
    requires forall r :: 0 <= r < |s.requests| ==> RequestConsistent(s.requests[r])
    ensures Apart(t)
  {
    forall a, b | 0 <= a < b < |t.requests| && Siblings(t.requests[a], t.requests[b])
      ensures t.requests[a].publishedAt + DUPLICATE_WINDOW < t.requests[b].publishedAt
    {
      assert Advances(s.requests[a].status, t.requests[a].status) &&
          Advances(s.requests[b].status, t.requests[b].status);
      assert SameTerms(s.requests[a], t.requests[a]) && SameTerms(s.requests[b], t.requests[b]);
      assert RequestConsistent(s.requests[a]) && RequestConsistent(s.requests[b]);
      assert Siblings(s.requests[a], s.requests[b]);
    }
  }

  lemma PublishKeepsApart(s: Store, form: NewRequest, premium: bool, now: Time)
    requires Apart(s)
    ensures Apart(Publish(s, form, premium, now).store)
  {
    var t, n := Publish(s, form, premium, now).store, |s.requests|;
    forall a, b | 0 <= a < b < |t.requests| && Siblings(t.requests[a], t.requests[b])
      ensures t.requests[a].publishedAt + DUPLICATE_WINDOW < t.requests[b].publishedAt
    {
      assert t.requests[a] == s.requests[a];
      if b == n {
        assert !IsRecentSibling(s.requests[a], Opened(form, now), now);
      } else {
        assert t.requests[b] == s.requests[b];
      }
    }
  }

  lemma {:induction false} RunKeepsApart(h: History, k: nat)
    requires h.IsRun() && k < |h.stores|
    ensures Apart(h.stores[k])
  {
    if k == 0 {
      assert h.stores[0] == EMPTY;
    } else {
      var s, step := h.stores[k - 1], h.steps[k - 1];
      RunKeepsApart(h, k - 1);
      RunIsConsistent(h, k - 1, k - 1);
      RunIsConsistent(h, k - 1, k);
      StatusMovesForward(h, k - 1, k);
      assert h.Follows(k - 1);
      if step.DoPublish? {
        PublishKeepsApart(s, step.form, step.premium, step.now);
      } else {
        OtherStepsPublishNothing(s, step);
        ForwardKeepsApart(s, h.stores[k]);
      }
    }
  }

  lemma OtherStepsPublishNothing(s: Store, step: Step)
    requires s.Linked() && Possible(s, step) && !step.DoPublish?
    ensures |Exec(s, step).store.requests| == |s.requests|
  {
  }

  /** The sibling that was published last. */
  predicate IsNewest(s: Store, r: nat)
    requires r < |s.requests|
  {
    forall q :: r < q < |s.requests| ==> !Siblings(s.requests[r], s.requests[q])
  }

  predicate ClockCaughtUp(s: Store, now: Time) {
    forall r :: 0 <= r < |s.requests| ==> s.requests[r].publishedAt <= now
  }

  /** In every run, once the clock has reached every publication: the save of an accepting request is
      rejected by at most one other request, which is younger, the newest of its kind, and stops being
      in the way five minutes after its publication. */
  lemma BlockedByTheNewest(h: History, k: nat, r: nat, q: nat, now: Time)
    requires h.IsRun() && k < |h.stores| && ClockCaughtUp(h.stores[k], now)
    requires r < |h.stores[k].requests| && q < |h.stores[k].requests| && q != r
    requires Accepting(h.stores[k].requests[r].status)
    requires IsRecentSibling(h.stores[k].requests[q], h.stores[k].requests[r], now)
    ensures r < q && IsNewest(h.stores[k], q)
    ensures forall later: Time :: later > h.stores[k].requests[q].publishedAt + DUPLICATE_WINDOW ==>
              !HasRecentSibling(h.stores[k].requests, r, h.stores[k].requests[r], later)
  {
    var s := h.stores[k];
    RunKeepsApart(h, k);
    assert Siblings(s.requests[q], s.requests[r]) && Siblings(s.requests[r], s.requests[q]);
    forall later: Time, p | later > s.requests[q].publishedAt + DUPLICATE_WINDOW && 0 <= p < |s.requests| && p != r
      ensures !IsRecentSibling(s.requests[p], s.requests[r], later)
    {
      assert Siblings(s.requests[p], s.requests[q]) ==> s.requests[p].publishedAt <= s.requests[q].publishedAt;
    }
  }

  /** `q` is the newest sibling of `r`, and was published no more than five minutes ago. */
  predicate HeldBackBy(s: Store, r: nat, q: nat, now: Time)
    requires r < |s.requests| && q < |s.requests|
  {
    && r < q && Siblings(s.requests[r], s.requests[q]) && IsNewest(s, q)
    && now <= s.requests[q].publishedAt + DUPLICATE_WINDOW
  }

  ghost predicate HeldBack(s: Store, r: nat, now: Time)
    requires r < |s.requests|
  {
    exists q :: r < q < |s.requests| && HeldBackBy(s, r, q, now)
  }

  /** In every run the save of an accepting request is rejected exactly while its newest younger sibling
      is no older than five minutes. */
  lemma BlockedIff(h: History, k: nat, r: nat, now: Time)
    requires h.IsRun() && k < |h.stores| && ClockCaughtUp(h.stores[k], now)
    requires r < |h.stores[k].requests| && Accepting(h.stores[k].requests[r].status)
    ensures HasRecentSibling(h.stores[k].requests, r, h.stores[k].requests[r], now) <==> HeldBack(h.stores[k], r, now)
  {
    var s := h.stores[k];
    if HasRecentSibling(s.requests, r, s.requests[r], now) {
      var q :| 0 <= q < |s.requests| && q != r && IsRecentSibling(s.requests[q], s.requests[r], now);
      BlockedByTheNewest(h, k, r, q, now);
      assert HeldBackBy(s, r, q, now);
    }
    if HeldBack(s, r, now) {
      var q :| r < q < |s.requests| && HeldBackBy(s, r, q, now);
      assert IsRecentSibling(s.requests[q], s.requests[r], now);
    }
  }

  /** The newest accepting request of a client in a category can always be saved. */
  lemma NewestIsNeverBlocked(h: History, k: nat, r: nat, now: Time)
    requires h.IsRun() && k < |h.stores| && ClockCaughtUp(h.stores[k], now)
    requires r < |h.stores[k].requests| && Accepting(h.stores[k].requests[r].status) && IsNewest(h.stores[k], r)
    ensures !HasRecentSibling(h.stores[k].requests, r, h.stores[k].requests[r], now)
  {
    BlockedIff(h, k, r, now);
  }

  /** A rejected sweep, run again at `later` on what it left: it is rejected again exactly while one of
      the requests still due is held back, and that is over five minutes after the first attempt. */
  lemma RejectedSweepGoesThrough(h: History, n: nat, due: seq<nat>, again: seq<nat>, now: Time, later: Time)
    returns (k: nat)
    requires h.IsRun() && n < |h.stores| && ClockCaughtUp(h.stores[n], now) && now <= later
    requires IsDueList(h.stores[n], due, now) && Sweep(h.stores[n], due, now).outcome == SaveRejected
    requires IsDueList(Sweep(h.stores[n], due, now).store, again, later)
    ensures Consistent(h.stores[n]) && StopsAt(h.stores[n], due, k, now)
    ensures var s := h.stores[n];
            var e := Sweep(Sweep(s, due, now).store, again, later);
            && (e.outcome == SaveRejected <==>
                  exists r :: r in LeftDue(s, Elements(due[..k]), later) && HeldBack(s, r, later))
            && (later > now + DUPLICATE_WINDOW ==> e.outcome != SaveRejected)
  {
    var s := h.stores[n];
    RunIsConsistent(h, n, n);
    k := RejectedSweepResumes(s, due, again, now, later);
    var left := LeftDue(s, Elements(due[..k]), later);
    forall r | r in left ensures Blocked(s, r, later) <==> HeldBack(s, r, later) {
      BlockedIff(h, n, r, later);
    }
    assert later > now + DUPLICATE_WINDOW ==> forall r :: r in left ==> !HeldBack(s, r, later);
  }

  // ----- what that means for a caller -----

  /** In every run a selection leaves the counts wrong only if the client has published a newer
      request of the category within the last five minutes. */
  lemma OvercommitNeedsNewer(h: History, k: nat, i: nat, now: Time)
    requires h.IsRun() && k < |h.stores| && ClockCaughtUp(h.stores[k], now)
    requires h.stores[k].Linked() && Overcommits(h.stores[k], i, now)
    ensures var s := h.stores[k];
            var r := s.interests[i].request;
            exists q :: r < q < |s.requests| && Siblings(s.requests[r], s.requests[q])
                        && now - DUPLICATE_WINDOW <= s.requests[q].publishedAt <= now
  {
    var s := h.stores[k];
    var r := s.interests[i].request;
    var q :| 0 <= q < |s.requests| && q != r && IsRecentSibling(s.requests[q], s.requests[r], now);
    BlockedByTheNewest(h, k, r, q, now);
    assert Siblings(s.requests[r], s.requests[q]);
  }
}
