/**
 What every run of the service-request calls keeps.

 Three invariants are kept apart because they survive different things. `Consistent` holds in every
 run. `Announced` is lost exactly when the save of a selection is rejected. `Sound`, which ties the
 status of a request to its selected interests, is lost exactly when such a rejected selection was
 the first one or the one that fills the last position.
 */
module RequestInvariants {
  import opened Wrappers
  import opened Requests

  // ----- the invariants -----

  predicate RequestConsistent(req: Request) {
    && FieldsValid(req) && WindowFits(req)
    && req.expiresAt == req.publishedAt + Duration(req.window)
    && req.status != Draft && req.status != Completed
    && (req.status == Open ==> req.closedAt.None?)
    && (req.status in {Filled, RequestStatus.Expired, Cancelled} ==> req.closedAt.Some?)
  }

  predicate InterestConsistent(s: Store, i: nat)
    requires s.Linked() && i < |s.interests|
  {
    && s.interests[i].status != Shortlisted
    && (s.interests[i].status == Applied ==> Accepting(s.requests[s.interests[i].request].status))
  }

  function NoticeCount(dispatches: multiset<Dispatch>, i: nat): nat {
    dispatches[Dispatch(i, SelectedNotice)] + dispatches[Dispatch(i, NotSelectedNotice)]
    + dispatches[Dispatch(i, ExpiredNotice)] + dispatches[Dispatch(i, CancelledNotice)]
  }

  /** The service, not the professional, ended the interest. */
  predicate Decided(status: InterestStatus) {
    status == Selected || status == NotSelected || status == InterestStatus.Expired
  }

  function MaxNotices(s: Store, i: nat): nat {
    if i < |s.interests| && Decided(s.interests[i].status) then 1 else 0
  }

  ghost predicate OneInterestPerProfessional(s: Store) {
    forall i, j :: 0 <= i < j < |s.interests| && s.interests[i].request == s.interests[j].request ==>
      s.interests[i].professional != s.interests[j].professional
  }

  ghost predicate WellFormed(s: Store) {
    && s.Linked()
    && (forall r :: 0 <= r < |s.requests| ==> RequestConsistent(s.requests[r]))
    && (forall i: nat :: i < |s.interests| ==> InterestConsistent(s, i))
    && OneInterestPerProfessional(s)
  }

  /** Nothing was announced, and no chat opened, that the status does not justify. */
  ghost predicate QuietAt(s: Store, i: nat) {
    && NoticeCount(s.dispatches, i) <= MaxNotices(s, i)
    && (i in s.conversations ==> i < |s.interests| && s.interests[i].status == Selected)
  }

  ghost predicate Consistent(s: Store) {
    WellFormed(s) && forall i: nat :: QuietAt(s, i)
  }

  ghost predicate AnnouncedAt(s: Store, i: nat)
    requires i < |s.interests|
  {
    && NoticeCount(s.dispatches, i) == MaxNotices(s, i)
    && (i in s.conversations <==> s.interests[i].status == Selected)
  }

  /** Every decided interest was announced once, and exactly the selected ones have a conversation. */
  ghost predicate Announced(s: Store) {
    forall i: nat :: i < |s.interests| ==> AnnouncedAt(s, i)
  }

  predicate CountsMatch(req: Request, selected: nat, applied: nat) {
    match req.status
    case Open => selected == 0
    case PartiallyFilled => 0 < selected < req.positions
    case Filled => selected == req.positions && applied == 0
    case Expired => selected == 0 && applied == 0
    case Cancelled => selected <= req.positions && applied == 0
    case Draft => false
    case Completed => false
  }

  ghost predicate SoundAt(s: Store, r: nat)
    requires r < |s.requests|
  {
    CountsMatch(s.requests[r], |SelectedIn(s, r)|, |AppliedIn(s, r)|)
  }

  ghost predicate Sound(s: Store) {
    forall r: nat :: r < |s.requests| ==> SoundAt(s, r)
  }

  /** Nothing disappears, an interest that left APPLIED never changes, a request keeps what it was
      published with. */
  ghost predicate Evolves(s: Store, t: Store) {
    && |s.requests| <= |t.requests|
    && (forall r :: 0 <= r < |s.requests| ==> SameTerms(s.requests[r], t.requests[r]))
    && |s.interests| <= |t.interests|
    && (forall i :: 0 <= i < |s.interests| ==> InterestEvolves(s.interests[i], t.interests[i]))
    && s.dispatches <= t.dispatches
    && s.conversations <= t.conversations
    && s.audit <= t.audit
  }

  predicate SameTerms(a: Request, b: Request) {
    && a.client == b.client && a.category == b.category && a.details == b.details && a.positions == b.positions
    && a.scheduledStart == b.scheduledStart && a.window == b.window
    && a.publishedAt == b.publishedAt && a.expiresAt == b.expiresAt
  }

  predicate InterestEvolves(a: Interest, b: Interest) {
    && a.request == b.request && a.professional == b.professional && a.message == b.message
    && (a.status != Applied ==> b.status == a.status)
  }

  // ----- frames -----

  lemma FinalizedFrame(interests: seq<Interest>, r: nat, final: InterestStatus)
    requires final != Applied
    ensures WithStatus(Finalized(interests, r, final), r, Applied) == {}
    ensures forall q: nat, st :: (q != r || (st != Applied && st != final)) ==>
              WithStatus(Finalized(interests, r, final), q, st) == WithStatus(interests, q, st)
  {
    var out := Finalized(interests, r, final);
    assert WithStatus(out, r, Applied) == {};
    forall q: nat, st | q != r || (st != Applied && st != final)
      ensures WithStatus(out, q, st) == WithStatus(interests, q, st)
    {
      forall i: nat ensures i in WithStatus(out, q, st) <==> i in WithStatus(interests, q, st) {
        if i < |interests| { assert out[i].request == interests[i].request; }
      }
    }
  }

  lemma ChosenFrame(interests: seq<Interest>, i: nat, to: InterestStatus)
    requires i < |interests| && interests[i].status == Applied && to != Applied
    ensures var out := interests[i := interests[i].(status := to)];
            var r := interests[i].request;
            && WithStatus(out, r, Applied) == WithStatus(interests, r, Applied) - {i}
            && WithStatus(out, r, to) == WithStatus(interests, r, to) + {i}
            && i !in WithStatus(interests, r, to)
            && (forall q: nat, st :: (q != r || (st != Applied && st != to)) ==>
                  WithStatus(out, q, st) == WithStatus(interests, q, st))
  {
    var out := interests[i := interests[i].(status := to)];
    var r := interests[i].request;
    assert WithStatus(out, r, Applied) == WithStatus(interests, r, Applied) - {i};
    assert WithStatus(out, r, to) == WithStatus(interests, r, to) + {i};
    forall q: nat, st | q != r || (st != Applied && st != to)
      ensures WithStatus(out, q, st) == WithStatus(interests, q, st)
    {
    }
  }

  lemma NoticesCounted(interests: set<nat>, notice: Notice, i: nat)
    ensures NoticeCount(Notices(interests, notice), i) == if i in interests then 1 else 0
  {
    var named := set j | j in interests :: Dispatch(j, notice);
    assert i in interests <==> Dispatch(i, notice) in named;
    forall n ensures multiset(named)[Dispatch(i, n)] == if n == notice && i in interests then 1 else 0 {
      if n != notice { assert Dispatch(i, n) !in named; }
    }
  }

  lemma NoticeCountAdds(a: multiset<Dispatch>, b: multiset<Dispatch>, i: nat)
    ensures NoticeCount(a + b, i) == NoticeCount(a, i) + NoticeCount(b, i)
  {
  }

  lemma FinalizeNotices(s: Store, r: nat, final: InterestStatus, notice: Notice, i: nat)
    requires r < |s.requests| && Decided(final) && final != Selected
    ensures var t := FinalizeRemaining(s, r, final, notice);
            && (QuietAt(s, i) ==> QuietAt(t, i))
            && (i < |s.interests| && AnnouncedAt(s, i) ==> AnnouncedAt(t, i))
  {
    NoticesCounted(AppliedIn(s, r), notice, i);
    NoticeCountAdds(s.dispatches, Notices(AppliedIn(s, r), notice), i);
    assert i in AppliedIn(s, r) <==>
             i < |s.interests| && s.interests[i].request == r && s.interests[i].status == Applied;
  }

  lemma FinalizeWellFormed(s: Store, r: nat, final: InterestStatus, notice: Notice)
    requires WellFormed(s) && r < |s.requests|
    requires Decided(final) && final != Selected
    ensures var t := FinalizeRemaining(s, r, final, notice);
            && WellFormed(t)
            && (forall i: nat :: i < |t.interests| && t.interests[i].request == r ==> t.interests[i].status != Applied)
  {
    var t := FinalizeRemaining(s, r, final, notice);
    forall i: nat | i < |t.interests| ensures InterestConsistent(t, i) {
      assert InterestConsistent(s, i);
    }
  }

  lemma FinalizeEvolves(s: Store, r: nat, final: InterestStatus, notice: Notice)
    ensures Evolves(s, FinalizeRemaining(s, r, final, notice))
  {
  }

  /** Finalizing the remaining interests of a request keeps everything but its link to the status. */
  lemma FinalizeKeeps(s: Store, r: nat, final: InterestStatus, notice: Notice)
    requires Consistent(s) && r < |s.requests|
    requires Decided(final) && final != Selected
    ensures var t := FinalizeRemaining(s, r, final, notice);
            && Consistent(t) && Evolves(s, t) && (Announced(s) ==> Announced(t))
            && (forall i: nat :: i < |t.interests| && t.interests[i].request == r ==> t.interests[i].status != Applied)
  {
    var t := FinalizeRemaining(s, r, final, notice);
    FinalizeWellFormed(s, r, final, notice);
    FinalizeEvolves(s, r, final, notice);
    forall i: nat
      ensures QuietAt(t, i)
      ensures Announced(s) && i < |t.interests| ==> AnnouncedAt(t, i)
    {
      assert QuietAt(s, i);
      FinalizeNotices(s, r, final, notice, i);
    }
  }

  /** Announcements look at interests, dispatches and conversations only. */
  lemma SameAnnouncements(s: Store, t: Store)
    requires forall i: nat :: QuietAt(s, i)
    requires t.interests == s.interests && t.dispatches == s.dispatches && t.conversations == s.conversations
    ensures forall i: nat :: QuietAt(t, i)
    ensures Announced(s) ==> Announced(t)
  {
    forall i: nat ensures QuietAt(t, i) {
      assert QuietAt(s, i);
    }
    if Announced(s) {
      forall i: nat | i < |t.interests| ensures AnnouncedAt(t, i) {
        assert AnnouncedAt(s, i);
      }
    }
  }

  /** Rewriting one request that has no applied interest, and adding audit events. */
  lemma RequestRewritten(s: Store, t: Store, r: nat)
    requires Consistent(s) && r < |s.requests|
    requires |t.requests| == |s.requests| && t == s.(requests := s.requests[r := t.requests[r]], audit := t.audit)
    requires s.audit <= t.audit
    requires RequestConsistent(t.requests[r]) && SameTerms(s.requests[r], t.requests[r])
    requires Accepting(t.requests[r].status)
          || (forall i: nat :: i < |s.interests| && s.interests[i].request == r ==> s.interests[i].status != Applied)
    ensures Consistent(t) && Evolves(s, t) && (Announced(s) ==> Announced(t))
  {
    SameAnnouncements(s, t);
    forall i: nat | i < |t.interests| ensures InterestConsistent(t, i) {
      assert InterestConsistent(s, i);
    }
  }

  // ----- each call keeps Consistent, and evolves the store -----

  lemma PublishKeepsSound(s: Store, t: Store)
    requires s.Linked() && Sound(s)
    requires |t.requests| == |s.requests| + 1 && t.requests[..|s.requests|] == s.requests
    requires t.requests[|s.requests|].status == Open && t.interests == s.interests
    ensures Sound(t)
  {
    var r := |s.requests|;
    assert SelectedIn(t, r) == {} && AppliedIn(t, r) == {};
    forall q: nat | q < |t.requests| ensures SoundAt(t, q) {
      assert q < r ==> t.requests[q] == s.requests[q] && SoundAt(s, q);
    }
  }

  lemma PublishKeeps(s: Store, form: NewRequest, premium: bool, now: Time)
    requires Consistent(s)
    ensures var t := Publish(s, form, premium, now).store;
            Consistent(t) && Evolves(s, t) && (Announced(s) ==> Announced(t))
  {
    var e := Publish(s, form, premium, now);
    var t := e.store;
    if e.outcome == Done {
      RequestOpened(s, t);
      SameAnnouncements(s, t);
      RequestsGrow(s, t);
    }
  }

  lemma RequestsGrow(s: Store, t: Store)
    requires s.requests <= t.requests && t.interests == s.interests && s.audit <= t.audit
    requires t.dispatches == s.dispatches && t.conversations == s.conversations
    ensures Evolves(s, t)
  {
  }

  lemma RequestOpened(s: Store, t: Store)
    requires WellFormed(s) && |t.requests| == |s.requests| + 1 && t.interests == s.interests
    requires forall r :: 0 <= r < |s.requests| ==> t.requests[r] == s.requests[r]
    requires RequestConsistent(t.requests[|s.requests|])
    ensures WellFormed(t)
  {
    forall i: nat | i < |t.interests| ensures InterestConsistent(t, i) {
      assert InterestConsistent(s, i);
    }
  }

  lemma ApplyKeeps(s: Store, r: nat, professional: int, message: string)
    requires Consistent(s)
    ensures var t := Apply(s, r, professional, message).store;
            Consistent(t) && Evolves(s, t) && (Announced(s) ==> Announced(t))
  {
    var e := Apply(s, r, professional, message);
    if e.outcome == Done {
      InterestAdded(s, e.store);
    }
  }

  lemma InterestAdded(s: Store, t: Store)
    requires Consistent(s) && |t.interests| == |s.interests| + 1 && t.requests == s.requests
    requires forall i :: 0 <= i < |s.interests| ==> t.interests[i] == s.interests[i]
    requires t.dispatches == s.dispatches && t.conversations == s.conversations
    requires var x := t.interests[|s.interests|];
             && x.status == Applied && x.request < |s.requests| && Accepting(s.requests[x.request].status)
             && !HasApplied(s.interests, x.request, x.professional)
    ensures Consistent(t) && (Announced(s) ==> Announced(t))
  {
    var n := |s.interests|;
    forall i: nat ensures QuietAt(t, i) ensures Announced(s) && i < |t.interests| ==> AnnouncedAt(t, i) {
      assert QuietAt(s, i);
      assert Announced(s) && i < n ==> AnnouncedAt(s, i);
    }
    forall i: nat | i < |t.interests| ensures InterestConsistent(t, i) {
      assert i < n ==> InterestConsistent(s, i);
    }
  }

  lemma ApplyKeepsSound(s: Store, t: Store)
    requires s.Linked() && Sound(s)
    requires t.requests == s.requests && |t.interests| == |s.interests| + 1
    requires forall i :: 0 <= i < |s.interests| ==> t.interests[i] == s.interests[i]
    requires var x := t.interests[|s.interests|];
             x.status == Applied && x.request < |s.requests| && Accepting(s.requests[x.request].status)
    ensures Sound(t)
  {
    var r := t.interests[|s.interests|].request;
    forall q: nat | q < |t.requests| ensures SoundAt(t, q) {
      assert SoundAt(s, q);
      assert SelectedIn(t, q) == SelectedIn(s, q);
      assert q != r ==> AppliedIn(t, q) == AppliedIn(s, q);
    }
  }

  /** One applied interest gets another status; nothing is announced. */
  lemma ChosenKeeps(s: Store, i: nat, to: InterestStatus, audit: seq<AuditEvent>)
    requires Consistent(s) && i < |s.interests| && s.interests[i].status == Applied
    requires to == Selected || to == Withdrawn
    ensures var t := s.(interests := s.interests[i := s.interests[i].(status := to)], audit := s.audit + audit);
            && Consistent(t) && Evolves(s, t)
            && NoticeCount(t.dispatches, i) == 0 && i !in t.conversations
            && (to == Withdrawn && Announced(s) ==> Announced(t))
  {
    var t := s.(interests := s.interests[i := s.interests[i].(status := to)], audit := s.audit + audit);
    assert QuietAt(s, i);
    forall j: nat
      ensures QuietAt(t, j)
      ensures to == Withdrawn && Announced(s) && j < |t.interests| ==> AnnouncedAt(t, j)
    {
      assert QuietAt(s, j);
      assert Announced(s) && j < |s.interests| ==> AnnouncedAt(s, j);
    }
    forall j: nat | j < |t.interests| ensures InterestConsistent(t, j) {
      assert InterestConsistent(s, j);
    }
  }

  lemma WithdrawKeeps(s: Store, i: nat)
    requires Consistent(s)
    ensures var t := Withdraw(s, i).store;
            Consistent(t) && Evolves(s, t) && (Announced(s) ==> Announced(t)) && (Sound(s) ==> Sound(t))
  {
    var t := Withdraw(s, i).store;
    if Withdraw(s, i).outcome == Done {
      ChosenKeeps(s, i, Withdrawn, [InterestWithdrawn(i)]);
      ChosenFrame(s.interests, i, Withdrawn);
      if Sound(s) {
        forall q: nat | q < |t.requests| ensures SoundAt(t, q) { assert SoundAt(s, q); }
      }
    }
  }

  /** Finalizing the interests of `r` and then perhaps rewriting `r` keeps the counts of the others. */
  lemma EndingCounts(s: Store, t: Store, r: nat, final: InterestStatus)
    requires Sound(s) && r < |s.requests| && Decided(final) && final != Selected
    requires |t.requests| == |s.requests| && t.requests == s.requests[r := t.requests[r]]
    requires t.interests == Finalized(s.interests, r, final)
    requires CountsMatch(t.requests[r], |SelectedIn(s, r)|, 0)
    ensures Sound(t)
  {
    FinalizedFrame(s.interests, r, final);
    forall q: nat | q < |t.requests| ensures SoundAt(t, q) {
      assert SoundAt(s, q);
      assert SelectedIn(t, q) == SelectedIn(s, q);
    }
  }

  lemma CloseOutKeeps(s: Store, r: nat, now: Time, event: AuditEvent)
    requires Consistent(s) && r < |s.requests|
    ensures var t := CloseOut(s, r, now, event).store;
            Consistent(t) && Evolves(s, t) && (Announced(s) ==> Announced(t)) && (Sound(s) ==> Sound(t))
  {
    var t := CloseOut(s, r, now, event).store;
    var e := EndingOf(s, r);
    var mid := FinalizeRemaining(s, r, e.interests, e.notice);
    FinalizeKeeps(s, r, e.interests, e.notice);
    if CloseOut(s, r, now, event).outcome == Done {
      RequestRewritten(mid, t, r);
      EvolvesTransitive(s, mid, t);
    }
    if Sound(s) {
      assert SoundAt(s, r) && RequestConsistent(s.requests[r]);
      EndingCounts(s, t, r, e.interests);
    }
  }

  lemma CancelKeeps(s: Store, r: nat, reason: string, now: Time)
    requires Consistent(s)
    ensures var t := Cancel(s, r, reason, now).store;
            Consistent(t) && Evolves(s, t) && (Announced(s) ==> Announced(t)) && (Sound(s) ==> Sound(t))
  {
    var t := Cancel(s, r, reason, now).store;
    if Cancel(s, r, reason, now).outcome == Done {
      var mid := FinalizeRemaining(s, r, InterestStatus.Expired, CancelledNotice);
      FinalizeKeeps(s, r, InterestStatus.Expired, CancelledNotice);
      RequestRewritten(mid, t, r);
      EvolvesTransitive(s, mid, t);
      if Sound(s) {
        assert SoundAt(s, r);
        EndingCounts(s, t, r, InterestStatus.Expired);
      }
    }
  }

  lemma {:induction false} SweepKeeps(s: Store, due: seq<nat>, now: Time)
    requires Consistent(s)
    requires forall k :: 0 <= k < |due| ==> due[k] < |s.requests|
    ensures var t := Sweep(s, due, now).store;
            Consistent(t) && Evolves(s, t) && (Announced(s) ==> Announced(t)) && (Sound(s) ==> Sound(t))
  {
    if |due| > 0 {
      var before := Sweep(s, due[..|due| - 1], now);
      SweepKeeps(s, due[..|due| - 1], now);
      if before.outcome != SaveRejected {
        CloseOutKeeps(before.store, due[|due| - 1], now, RequestExpired(due[|due| - 1]));
        EvolvesTransitive(s, before.store, Sweep(s, due, now).store);
      }
    }
  }

  lemma EvolvesTransitive(a: Store, b: Store, c: Store)
    requires Evolves(a, b) && Evolves(b, c)
    ensures Evolves(a, c)
  {
    forall i | 0 <= i < |a.interests| ensures InterestEvolves(a.interests[i], c.interests[i]) {
      assert InterestEvolves(a.interests[i], b.interests[i]) && InterestEvolves(b.interests[i], c.interests[i]);
    }
    forall r | 0 <= r < |a.requests| ensures SameTerms(a.requests[r], c.requests[r]) {
      assert SameTerms(a.requests[r], b.requests[r]) && SameTerms(b.requests[r], c.requests[r]);
    }
  }

  // ----- selection, the one call that can lose an invariant -----

  /** The store after the interest itself was saved, before anything else. */
  function Chosen(s: Store, i: nat): Store
    requires i < |s.interests|
  {
    s.(interests := s.interests[i := s.interests[i].(status := Selected)])
  }

  predicate MaySelect(s: Store, i: nat)
    requires s.Linked()
  {
    i < |s.interests| && Accepting(s.requests[s.interests[i].request].status) && s.interests[i].status == Applied
  }

  /** Once the save of a selection went through: the conversation, the notice, the audit event. */
  function WithChat(s: Store, i: nat): Store {
    s.(conversations := s.conversations + {i},
       dispatches := s.dispatches + multiset{Dispatch(i, SelectedNotice)},
       audit := s.audit + [InterestSelected(i)])
  }

  lemma WithChatKeeps(s: Store, i: nat)
    requires Consistent(s) && i < |s.interests| && s.interests[i].status == Selected
    requires NoticeCount(s.dispatches, i) == 0
    ensures Consistent(WithChat(s, i)) && Evolves(s, WithChat(s, i))
    ensures (forall j: nat :: j < |s.interests| && j != i ==> AnnouncedAt(s, j)) ==> Announced(WithChat(s, i))
  {
    var t := WithChat(s, i);
    forall j: nat
      ensures QuietAt(t, j)
      ensures j < |s.interests| && (j == i || AnnouncedAt(s, j)) ==> AnnouncedAt(t, j)
    {
      assert QuietAt(s, j);
      NoticeCountAdds(s.dispatches, multiset{Dispatch(i, SelectedNotice)}, j);
    }
    forall j: nat | j < |t.interests| ensures InterestConsistent(t, j) {
      assert InterestConsistent(s, j);
    }
  }

  /** A selection up to the save of the request: the chosen interest and, when full, the others. */
  function Settled(s: Store, i: nat): Store
    requires s.Linked() && MaySelect(s, i)
  {
    var r := s.interests[i].request;
    if |SelectedIn(Chosen(s, i), r)| >= s.requests[r].positions
    then FinalizeRemaining(Chosen(s, i), r, NotSelected, NotSelectedNotice)
    else Chosen(s, i)
  }

  lemma SettledKeeps(s: Store, i: nat)
    requires Consistent(s) && MaySelect(s, i)
    ensures Consistent(Settled(s, i)) && Evolves(s, Settled(s, i))
    ensures Settled(s, i).interests[i].status == Selected
    ensures NoticeCount(Settled(s, i).dispatches, i) == 0 && i !in Settled(s, i).conversations
  {
    var r := s.interests[i].request;
    var chosen := Chosen(s, i);
    ChosenKeeps(s, i, Selected, []);
    assert chosen == s.(interests := chosen.interests, audit := s.audit + []);
    FinalizeKeeps(chosen, r, NotSelected, NotSelectedNotice);
    EvolvesTransitive(s, chosen, Settled(s, i));
    NoticesCounted(AppliedIn(chosen, r), NotSelectedNotice, i);
    NoticeCountAdds(chosen.dispatches, Notices(AppliedIn(chosen, r), NotSelectedNotice), i);
  }

  /** The others stay announced. */
  lemma SettledAnnounces(s: Store, i: nat)
    requires Consistent(s) && MaySelect(s, i) && Announced(s)
    ensures forall j: nat :: j < |s.interests| && j != i ==> AnnouncedAt(Settled(s, i), j)
  {
    var chosen := Chosen(s, i);
    forall j: nat | j < |s.interests| && j != i ensures AnnouncedAt(Settled(s, i), j) {
      assert AnnouncedAt(s, j) && AnnouncedAt(chosen, j);
      FinalizeNotices(chosen, s.interests[i].request, NotSelected, NotSelectedNotice, j);
    }
  }

  /** A selection whose save went through, from the settled interests on. */
  lemma SavedSelectionKeeps(s: Store, i: nat, saved: Request)
    requires Consistent(s) && MaySelect(s, i)
    requires RequestConsistent(saved) && SameTerms(s.requests[s.interests[i].request], saved)
    requires saved.status == if |SelectedIn(Chosen(s, i), s.interests[i].request)| >= saved.positions
                             then Filled else PartiallyFilled
    ensures var t := WithChat(Settled(s, i).(requests := s.requests[s.interests[i].request := saved]), i);
            Consistent(t) && Evolves(s, t) && (Announced(s) ==> Announced(t))
  {
    var r := s.interests[i].request;
    var mid := Settled(s, i);
    SettledKeeps(s, i);
    var next := mid.(requests := s.requests[r := saved]);
    if saved.status == Filled {
      FinalizedFrame(Chosen(s, i).interests, r, NotSelected);
      forall j: nat | j < |mid.interests| && mid.interests[j].request == r ensures mid.interests[j].status != Applied {
        assert j !in AppliedIn(mid, r);
      }
    }
    RequestRewritten(mid, next, r);
    EvolvesTransitive(s, mid, next);
    if Announced(s) {
      SettledAnnounces(s, i);
      forall j: nat | j < |s.interests| && j != i ensures AnnouncedAt(next, j) {
        assert AnnouncedAt(mid, j);
      }
    }
    WithChatKeeps(next, i);
    EvolvesTransitive(s, next, WithChat(next, i));
  }

  lemma SelectKeeps(s: Store, i: nat, now: Time)
    requires Consistent(s)
    ensures var e := Select(s, i, now);
            && Consistent(e.store) && Evolves(s, e.store)
            && (MaySelect(s, i) && e.outcome == SaveRejected ==> e.store == Settled(s, i))
            && (Announced(s) && e.outcome == Done ==> Announced(e.store))
  {
    if MaySelect(s, i) && Select(s, i, now).outcome == Done {
      var r := s.interests[i].request;
      var saved := Select(s, i, now).store.requests[r];
      assert RequestConsistent(s.requests[r]);
      SavedSelectionKeeps(s, i, saved);
      assert WithChat(Settled(s, i).(requests := s.requests[r := saved]), i) == Select(s, i, now).store;
    } else if MaySelect(s, i) {
      SettledKeeps(s, i);
    }
  }

  /** What a caller can check before selecting: the save would be rejected because of a recent
      sibling, and the selection is the first one or fills the last position. */
  predicate Overcommits(s: Store, i: nat, now: Time)
    requires s.Linked()
  {
    && MaySelect(s, i)
    && var r := s.interests[i].request;
       && HasRecentSibling(s.requests, r, s.requests[r], now)
       && (s.requests[r].status == Open || |SelectedIn(s, r)| + 1 >= s.requests[r].positions)
  }

  /** In a consistent store only a recent sibling can reject the save of a selection. */
  lemma SelectRejectedIff(s: Store, i: nat, now: Time)
    requires Consistent(s) && MaySelect(s, i)
    ensures var r := s.interests[i].request;
            Select(s, i, now).outcome == SaveRejected <==> HasRecentSibling(s.requests, r, s.requests[r], now)
  {
    var r := s.interests[i].request;
    var req := s.requests[r];
    assert RequestConsistent(req);
    SiblingsIgnoreStatus(s.requests, r, req, req.(status := Filled, closedAt := Some(now)), now);
    SiblingsIgnoreStatus(s.requests, r, req, req.(status := PartiallyFilled), now);
  }

  lemma SiblingsIgnoreStatus(requests: seq<Request>, self: int, a: Request, b: Request, now: Time)
    requires a.client == b.client && a.category == b.category
    ensures HasRecentSibling(requests, self, a, now) <==> HasRecentSibling(requests, self, b, now)
  {
    forall k | 0 <= k < |requests|
      ensures IsRecentSibling(requests[k], a, now) <==> IsRecentSibling(requests[k], b, now)
    {
    }
  }

  /** A selection keeps the announcements right exactly when no recent sibling rejects its save. */
  lemma SelectAnnouncesIff(s: Store, i: nat, now: Time)
    requires Consistent(s) && Announced(s)
    ensures Announced(Select(s, i, now).store) <==>
              !(MaySelect(s, i)
                && HasRecentSibling(s.requests, s.interests[i].request, s.requests[s.interests[i].request], now))
  {
    SelectKeeps(s, i, now);
    if MaySelect(s, i) { SelectRejectedIff(s, i, now); }
    if Select(s, i, now).outcome == SaveRejected {
      SettledKeeps(s, i);
      assert !AnnouncedAt(Select(s, i, now).store, i);
    }
  }

  lemma SelectionCounts(s: Store, i: nat)
    requires Consistent(s) && MaySelect(s, i)
    ensures var r := s.interests[i].request;
            var chosen := Chosen(s, i);
            && |SelectedIn(chosen, r)| == |SelectedIn(s, r)| + 1
            && (forall q: nat :: q != r ==>
                  SelectedIn(chosen, q) == SelectedIn(s, q) && AppliedIn(chosen, q) == AppliedIn(s, q))
  {
    ChosenFrame(s.interests, i, Selected);
  }

  /** A selection keeps the counts right exactly when it does not overcommit. */
  lemma SelectSoundIff(s: Store, i: nat, now: Time)
    requires Consistent(s) && Sound(s)
    ensures Sound(Select(s, i, now).store) <==> !Overcommits(s, i, now)
  {
    if MaySelect(s, i) {
      var r := s.interests[i].request;
      var chosen := Chosen(s, i);
      var e := Select(s, i, now);
      SelectionCounts(s, i);
      SelectRejectedIff(s, i, now);
      FinalizedFrame(chosen.interests, r, NotSelected);
      assert SoundAt(s, r) && RequestConsistent(s.requests[r]);
      assert SelectedIn(e.store, r) == SelectedIn(chosen, r);
      forall q: nat | q < |s.requests| && q != r ensures SoundAt(e.store, q) {
        assert SoundAt(s, q);
        assert SelectedIn(e.store, q) == SelectedIn(s, q) && AppliedIn(e.store, q) == AppliedIn(s, q);
      }
      assert Sound(e.store) <==> SoundAt(e.store, r);
    }
  }

  // ----- whole runs -----

  /** What the other calls keep, and what a selection keeps where it keeps the rest. */
  ghost predicate Keeps(s: Store, e: Effect, sound: bool, announced: bool) {
    && Consistent(e.store) && Evolves(s, e.store)
    && (Sound(s) && sound ==> Sound(e.store))
    && (Announced(s) && announced ==> Announced(e.store))
  }

  /** What one step keeps, and on which condition. */
  ghost predicate StepOk(s: Store, step: Step)
    requires s.Linked() && Possible(s, step)
  {
    Keeps(s, Exec(s, step), !(step.DoSelect? && Overcommits(s, step.interest, step.now)),
          !(step.DoSelect? && Exec(s, step).outcome == SaveRejected))
  }

  lemma PublishStep(s: Store, step: Step)
    requires Consistent(s) && step.DoPublish?
    ensures StepOk(s, step)
  {
    var e := Exec(s, step);
    assert e == Publish(s, step.form, step.premium, step.now);
    PublishKeeps(s, step.form, step.premium, step.now);
    if Sound(s) && e.outcome == Done { PublishKeepsSound(s, e.store); }
    assert Keeps(s, e, true, true);
  }

  lemma ApplyStep(s: Store, step: Step)
    requires Consistent(s) && step.DoApply?
    ensures StepOk(s, step)
  {
    var e := Exec(s, step);
    assert e == Apply(s, step.request, step.professional, step.message);
    ApplyKeeps(s, step.request, step.professional, step.message);
    if Sound(s) && e.outcome == Done { ApplyKeepsSound(s, e.store); }
    assert Keeps(s, e, true, true);
  }

  lemma SelectStep(s: Store, step: Step)
    requires Consistent(s) && step.DoSelect?
    ensures StepOk(s, step)
  {
    SelectKeeps(s, step.interest, step.now);
    if Sound(s) { SelectSoundIff(s, step.interest, step.now); }
  }

  lemma WithdrawStep(s: Store, step: Step)
    requires Consistent(s) && step.DoWithdraw?
    ensures StepOk(s, step)
  {
    var e := Exec(s, step);
    assert e == Withdraw(s, step.interest);
    WithdrawKeeps(s, step.interest);
    assert Keeps(s, e, true, true);
  }

  lemma CloseNowKeeps(s: Store, r: nat, now: Time)
    requires Consistent(s)
    ensures Keeps(s, CloseNow(s, r, now), true, true)
  {
    if r < |s.requests| && Accepting(s.requests[r].status) {
      CloseOutKeeps(s, r, now, RequestClosedManually(r));
    }
  }

  lemma CloseStep(s: Store, step: Step)
    requires Consistent(s) && step.DoClose?
    ensures StepOk(s, step)
  {
    var e := Exec(s, step);
    assert e == CloseNow(s, step.request, step.now);
    CloseNowKeeps(s, step.request, step.now);
    assert Keeps(s, e, true, true);
  }

  lemma CancelStep(s: Store, step: Step)
    requires Consistent(s) && step.DoCancel?
    ensures StepOk(s, step)
  {
    var e := Exec(s, step);
    assert e == Cancel(s, step.request, step.reason, step.now);
    CancelKeeps(s, step.request, step.reason, step.now);
    assert Keeps(s, e, true, true);
  }

  lemma SweepStep(s: Store, step: Step)
    requires Consistent(s) && Possible(s, step) && step.DoSweep?
    ensures StepOk(s, step)
  {
    var e := Exec(s, step);
    assert e == Sweep(s, step.due, step.now);
    SweepKeeps(s, step.due, step.now);
    assert Keeps(s, e, true, true);
  }

  lemma StepKeeps(s: Store, step: Step)
    requires Consistent(s) && Possible(s, step)
    ensures StepOk(s, step)
  {
    match step
    case DoPublish(_, _, _) => PublishStep(s, step);
    case DoApply(_, _, _) => ApplyStep(s, step);
    case DoSelect(_, _) => SelectStep(s, step);
    case DoWithdraw(_) => WithdrawStep(s, step);
    case DoClose(_, _) => CloseStep(s, step);
    case DoCancel(_, _, _) => CancelStep(s, step);
    case DoSweep(_, _) => SweepStep(s, step);
  }

  ghost predicate OvercommitsAt(h: History, k: nat)
    requires h.IsRun() && k < |h.steps|
  {
    h.Follows(k) && h.steps[k].DoSelect? && Overcommits(h.stores[k], h.steps[k].interest, h.steps[k].now)
  }

  ghost predicate RejectedAt(h: History, k: nat)
    requires h.IsRun() && k < |h.steps|
  {
    h.Follows(k) && Exec(h.stores[k], h.steps[k]).outcome == SaveRejected
  }

  lemma StepOfRun(h: History, k: nat)
    requires h.IsRun() && k < |h.steps| && Consistent(h.stores[k])
    ensures Consistent(h.stores[k + 1]) && Evolves(h.stores[k], h.stores[k + 1])
    ensures Sound(h.stores[k]) && !OvercommitsAt(h, k) ==> Sound(h.stores[k + 1])
    ensures Announced(h.stores[k]) && !RejectedAt(h, k) ==> Announced(h.stores[k + 1])
  {
    assert h.Follows(k);
    var s, step := h.stores[k], h.steps[k];
    var e := Exec(s, step);
    StepKeeps(s, step);
    assert Keeps(s, e, !OvercommitsAt(h, k), !RejectedAt(h, k));
  }

  lemma EmptyIsInOrder()
    ensures Consistent(EMPTY) && Sound(EMPTY) && Announced(EMPTY)
  {
  }

  lemma {:induction false} RunStaysConsistent(h: History, k: nat)
    requires h.IsRun() && k < |h.stores|
    ensures Consistent(h.stores[k])
  {
    if k == 0 {
      EmptyIsInOrder();
    } else {
      RunStaysConsistent(h, k - 1);
      StepOfRun(h, k - 1);
    }
  }

  /** Every run, rejected saves included. */
  lemma {:induction false} RunIsConsistent(h: History, j: nat, k: nat)
    requires h.IsRun() && j <= k < |h.stores|
    ensures Consistent(h.stores[k])
    ensures Evolves(h.stores[j], h.stores[k])
    decreases k
  {
    RunStaysConsistent(h, k);
    if j < k {
      RunIsConsistent(h, j, k - 1);
      StepOfRun(h, k - 1);
      EvolvesTransitive(h.stores[j], h.stores[k - 1], h.stores[k]);
    }
  }

  /** An interest that once left APPLIED has the same status ever after, and is announced at most once. */
  lemma InterestLeavesAppliedOnce(h: History, i: nat, j: nat, k: nat)
    requires h.IsRun() && j <= k < |h.stores| && i < |h.stores[j].interests|
    ensures i < |h.stores[k].interests|
    ensures h.stores[j].interests[i].status != Applied ==> h.stores[k].interests[i] == h.stores[j].interests[i]
    ensures NoticeCount(h.stores[k].dispatches, i) <= 1
    ensures h.stores[k].interests[i].status in {Applied, Withdrawn} ==> NoticeCount(h.stores[k].dispatches, i) == 0
  {
    RunIsConsistent(h, j, k);
    assert InterestEvolves(h.stores[j].interests[i], h.stores[k].interests[i]);
    assert QuietAt(h.stores[k], i);
  }

  ghost predicate NeverOvercommits(h: History)
    requires h.IsRun()
  {
    forall k :: 0 <= k < |h.steps| ==> !OvercommitsAt(h, k)
  }

  lemma SoundStepOfRun(h: History, k: nat)
    requires h.IsRun() && k < |h.steps| && NeverOvercommits(h) && Consistent(h.stores[k]) && Sound(h.stores[k])
    ensures Sound(h.stores[k + 1])
  {
    assert !OvercommitsAt(h, k);
    StepOfRun(h, k);
  }

  lemma {:induction false} RunIsSound(h: History, k: nat)
    requires h.IsRun() && k < |h.stores| && NeverOvercommits(h)
    ensures Sound(h.stores[k])
  {
    if k == 0 {
      EmptyIsInOrder();
    } else {
      RunIsSound(h, k - 1);
      RunStaysConsistent(h, k - 1);
      SoundStepOfRun(h, k - 1);
    }
  }

  lemma RejectionOvercommits(h: History, k: nat)
    requires h.IsRun() && k < |h.steps| && Consistent(h.stores[k])
    ensures OvercommitsAt(h, k) ==> RejectedAt(h, k)
  {
    assert h.Follows(k);
    var s, step := h.stores[k], h.steps[k];
    if step.DoSelect? && MaySelect(s, step.interest) {
      SelectRejectedIff(s, step.interest, step.now);
    }
  }

  /** A run in which no save is rejected meets both status laws, whole. */
  lemma {:induction false} RunWithoutRejection(h: History, k: nat)
    requires h.IsRun() && k < |h.stores|
    requires forall n :: 0 <= n < |h.steps| ==> !RejectedAt(h, n)
    ensures Sound(h.stores[k]) && Announced(h.stores[k])
  {
    if k == 0 {
      EmptyIsInOrder();
    } else {
      RunWithoutRejection(h, k - 1);
      RunStaysConsistent(h, k - 1);
      assert !RejectedAt(h, k - 1);
      RejectionOvercommits(h, k - 1);
      StepOfRun(h, k - 1);
    }
  }

  /** In a run that never overcommits, neither the manual close nor the sweep can fill a request. */
  lemma EndingNeverFills(h: History, k: nat, r: nat)
    requires h.IsRun() && k < |h.stores| && NeverOvercommits(h)
    requires r < |h.stores[k].requests| && Accepting(h.stores[k].requests[r].status)
    ensures EndingOf(h.stores[k], r).status != Filled
    ensures EndingOf(h.stores[k], r).status == PartiallyFilled <==> h.stores[k].requests[r].status == PartiallyFilled
  {
    RunIsSound(h, k);
    assert SoundAt(h.stores[k], r);
  }
}
