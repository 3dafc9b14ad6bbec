/**
 The free quota over whole runs: a client on the free plan never has more than five requests
 published inside any 30 days.
 */
module RequestQuota {
  import opened Requests
  import opened RequestInvariants
  import Sets
  import SlidingWindow

  function PublicationTimes(s: Store): seq<Time> {
    seq(|s.requests|, k requires 0 <= k < |s.requests| => s.requests[k].publishedAt)
  }

  function RequestsOf(s: Store, client: int): set<nat> {
    set k: nat | k < |s.requests| && s.requests[k].client == client
  }

  ghost predicate NeverPremium(h: History, client: int)
    requires h.IsRun()
  {
    forall k :: 0 <= k < |h.steps| && h.steps[k].DoPublish? && h.steps[k].form.client == client ==> !h.steps[k].premium
  }

  /** The quota check, as it stood when each request of the client was published. */
  ghost predicate Admitted(s: Store, client: int) {
    forall k :: k in RequestsOf(s, client) ==>
      |SlidingWindow.Earlier(PublicationTimes(s), RequestsOf(s, client), k, QUOTA_WINDOW)| < FREE_MONTHLY_REQUEST_LIMIT
  }

  lemma UnpublishedKeepsQuota(s: Store, t: Store, client: int)
    requires Evolves(s, t) && |t.requests| == |s.requests|
    requires Admitted(s, client)
    ensures Admitted(t, client)
  {
    forall k | 0 <= k < |s.requests| ensures SameTerms(s.requests[k], t.requests[k]) {}
    assert PublicationTimes(t) == PublicationTimes(s);
    assert RequestsOf(t, client) == RequestsOf(s, client);
  }

  /** At the publication itself the quota check counts just those. */
  lemma CountedAtPublication(s: Store, form: NewRequest, premium: bool, now: Time)
    requires Consistent(s) && Publish(s, form, premium, now).outcome == Done
    ensures var t := Publish(s, form, premium, now).store;
            SlidingWindow.Earlier(PublicationTimes(t), RequestsOf(t, form.client), |s.requests|, QUOTA_WINDOW)
            == CountedForQuota(s.requests, form.client, now)
  {
    var t, n := Publish(s, form, premium, now).store, |s.requests|;
    var earlier := SlidingWindow.Earlier(PublicationTimes(t), RequestsOf(t, form.client), n, QUOTA_WINDOW);
    forall j: nat ensures j in earlier <==> j in CountedForQuota(s.requests, form.client, now) {
      if j < n { assert RequestConsistent(s.requests[j]); }
    }
  }

  lemma PublicationKeepsQuota(s: Store, form: NewRequest, premium: bool, now: Time, client: int)
    requires Consistent(s) && Admitted(s, client)
    requires Publish(s, form, premium, now).outcome == Done
    requires form.client == client ==> !premium
    ensures Admitted(Publish(s, form, premium, now).store, client)
  {
    var t, n := Publish(s, form, premium, now).store, |s.requests|;
    forall k | k in RequestsOf(t, client)
      ensures |SlidingWindow.Earlier(PublicationTimes(t), RequestsOf(t, client), k, QUOTA_WINDOW)|
                < FREE_MONTHLY_REQUEST_LIMIT
    {
      if k < n {
        assert SlidingWindow.Earlier(PublicationTimes(t), RequestsOf(t, client), k, QUOTA_WINDOW)
            == SlidingWindow.Earlier(PublicationTimes(s), RequestsOf(s, client), k, QUOTA_WINDOW);
      } else {
        CountedAtPublication(s, form, premium, now);
      }
    }
  }

  lemma StepKeepsQuota(s: Store, step: Step, client: int)
    requires Consistent(s) && Possible(s, step) && Admitted(s, client) && Evolves(s, Exec(s, step).store)
    requires step.DoPublish? && step.form.client == client ==> !step.premium
    ensures Admitted(Exec(s, step).store, client)
  {
    var e := Exec(s, step);
    if step.DoPublish? && e.outcome == Done {
      assert e == Publish(s, step.form, step.premium, step.now);
      PublicationKeepsQuota(s, step.form, step.premium, step.now, client);
    } else {
      OnlyPublishAddsRequests(s, step);
      UnpublishedKeepsQuota(s, e.store, client);
    }
    assert Admitted(e.store, client);
  }

  lemma {:induction false} RunKeepsQuota(h: History, client: int, k: nat)
    requires h.IsRun() && NeverPremium(h, client) && k < |h.stores|
    ensures Admitted(h.stores[k], client)
  {
    if k == 0 {
      assert h.stores[0] == EMPTY;
    } else {
      RunKeepsQuota(h, client, k - 1);
      RunIsConsistent(h, k - 1, k - 1);
      RunIsConsistent(h, k - 1, k);
      assert h.Follows(k - 1);
      StepKeepsQuota(h.stores[k - 1], h.steps[k - 1], client);
    }
  }

  lemma OnlyPublishAddsRequests(s: Store, step: Step)
    requires s.Linked() && Possible(s, step)
    requires !(step.DoPublish? && Exec(s, step).outcome == Done)
    ensures |Exec(s, step).store.requests| == |s.requests|
  {
  }

  /** A client who is never premium has at most five requests published in any closed interval of 30
      days, even if the clock jumps. */
  lemma FreeQuota(h: History, client: int, k: nat, from: Time)
    requires h.IsRun() && NeverPremium(h, client) && k < |h.stores|
    ensures var s := h.stores[k];
            |SlidingWindow.Inside(PublicationTimes(s), RequestsOf(s, client), from, from + QUOTA_WINDOW)|
              <= FREE_MONTHLY_REQUEST_LIMIT
  {
    RunKeepsQuota(h, client, k);
    var s := h.stores[k];
    SlidingWindow.AdmittedBound(PublicationTimes(s), RequestsOf(s, client), QUOTA_WINDOW,
                                FREE_MONTHLY_REQUEST_LIMIT, from);
  }

  /** Whatever the client paid for before: a publication on the free plan is the end of 30 days with
      at most five requests of that client. */
  lemma FreePublication(h: History, k: nat)
    requires h.IsRun() && k < |h.steps| && h.steps[k].DoPublish? && !h.steps[k].premium
    requires h.Follows(k) && Exec(h.stores[k], h.steps[k]).outcome == Done
    ensures var s, step := h.stores[k + 1], h.steps[k];
            |SlidingWindow.Inside(PublicationTimes(s), RequestsOf(s, step.form.client),
                                  step.now - QUOTA_WINDOW, step.now)|
              <= FREE_MONTHLY_REQUEST_LIMIT
  {
    RunIsConsistent(h, k, k);
    var e := Exec(h.stores[k], h.steps[k]);
    assert e == Publish(h.stores[k], h.steps[k].form, false, h.steps[k].now);
    PublicationCounted(h.stores[k], h.steps[k].form, h.steps[k].now);
  }

  lemma PublicationCounted(s: Store, form: NewRequest, now: Time)
    requires Consistent(s) && Publish(s, form, false, now).outcome == Done
    ensures var t := Publish(s, form, false, now).store;
            |SlidingWindow.Inside(PublicationTimes(t), RequestsOf(t, form.client), now - QUOTA_WINDOW, now)|
              <= FREE_MONTHLY_REQUEST_LIMIT
  {
    var t, n := Publish(s, form, false, now).store, |s.requests|;
    var times, mine := PublicationTimes(t), RequestsOf(t, form.client);
    assert times[n] == now && n in mine;
    CountedAtPublication(s, form, false, now);
    SlidingWindow.UpToGreatest(times, mine, QUOTA_WINDOW, now - QUOTA_WINDOW, n);
    Sets.SubsetSize(SlidingWindow.Inside(times, mine, now - QUOTA_WINDOW, now),
                    CountedForQuota(s.requests, form.client, now) + {n});
  }
}
