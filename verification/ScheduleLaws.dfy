/**
 The weekly schedule told by instants: a period covers the instants from its start until its end, and a
 good schedule covers no instant of a weekday twice. The profile form told by its columns and bounds.
 */
module ScheduleLaws {
  import opened Wrappers
  import opened Clock
  import opened Schedule
  import opened ProfileForms
  import opened ScheduleStore
  import Listings
  import Text

  // ----- what the validator accepts -----

  /** The instant of the day lies in the period. */
  predicate Covers(p: Period, t: Micros) {
    match (ParseClock(p.start), ParseClock(p.end))
    case (Some(start), Some(end)) => start <= t < end
    case _ => false
  }

  ghost predicate CoversSome(p: Period) {
    exists t :: Covers(p, t)
  }

  /** Days from 0 to 6, no empty period, and no instant of a weekday in two periods. */
  ghost predicate NothingTwice(periods: seq<Period>) {
    && (forall i :: 0 <= i < |periods| ==> 0 <= periods[i].weekday <= 6 && CoversSome(periods[i]))
    && (forall i, j, t :: 0 <= i < j < |periods| && periods[i].weekday == periods[j].weekday ==>
          !(Covers(periods[i], t) && Covers(periods[j], t)))
  }

  lemma ValidIff(p: Period)
    ensures ValidPeriod(p) <==> 0 <= p.weekday <= 6 && CoversSome(p)
  {
    if ValidPeriod(p) {
      assert Covers(p, Start(p));
    }
    if CoversSome(p) {
      var t :| Covers(p, t);
    }
  }

  lemma CoversIff(p: Period, t: Micros)
    requires ValidPeriod(p)
    ensures Covers(p, t) <==> Start(p) <= t < End(p)
  {
  }

  lemma DisjointIff(p: Period, q: Period)
    requires ValidPeriod(p) && ValidPeriod(q) && p.weekday == q.weekday
    ensures Disjoint(p, q) <==> forall t :: !(Covers(p, t) && Covers(q, t))
  {
    var t := if Start(p) < Start(q) then Start(q) else Start(p);
    CoversIff(p, t);
    CoversIff(q, t);
    if Disjoint(p, q) {
      forall u ensures !(Covers(p, u) && Covers(q, u)) {
        CoversIff(p, u);
        CoversIff(q, u);
      }
    }
  }

  lemma GoodIff(periods: seq<Period>)
    ensures GoodSchedule(periods) <==> NothingTwice(periods)
  {
    forall i | 0 <= i < |periods| ensures ValidPeriod(periods[i]) <==>
                                         0 <= periods[i].weekday <= 6 && CoversSome(periods[i]) {
      ValidIff(periods[i]);
    }
    if forall i :: 0 <= i < |periods| ==> ValidPeriod(periods[i]) {
      forall i, j | 0 <= i < j < |periods| && periods[i].weekday == periods[j].weekday
        ensures Disjoint(periods[i], periods[j]) <==> forall t :: !(Covers(periods[i], t) && Covers(periods[j], t))
      {
        assert ValidPeriod(periods[i]) && ValidPeriod(periods[j]);
        DisjointIff(periods[i], periods[j]);
      }
      GoodPairs(periods);
    }
  }

  lemma GoodPairs(periods: seq<Period>)
    requires forall i, j :: 0 <= i < j < |periods| && periods[i].weekday == periods[j].weekday ==>
               (Disjoint(periods[i], periods[j]) <==> forall t :: !(Covers(periods[i], t) && Covers(periods[j], t)))
    ensures (forall i, j :: 0 <= i < j < |periods| ==> Disjoint(periods[i], periods[j])) <==>
            (forall i, j, t :: 0 <= i < j < |periods| && periods[i].weekday == periods[j].weekday ==>
               !(Covers(periods[i], t) && Covers(periods[j], t)))
  {
  }

  /** Two starts on one weekday whose order as text is not their order as times. */
  ghost predicate TextAgainstTime(p: Period, q: Period) {
    && p.weekday == q.weekday && ParseClock(p.start).Some? && ParseClock(q.start).Some?
    && ParseClock(p.start).value < ParseClock(q.start).value && Less(q.start, p.start)
  }

  /** The validator accepts exactly the schedules that cover nothing twice and whose starts do not sort as
      text against the clock, whatever the library sort does with ties. */
  lemma AcceptedByInstants(input: seq<Period>, sorted: seq<Period>)
    requires IsSortOf(input, sorted)
    ensures ScanAccepts(sorted) <==>
              NothingTwice(input) && forall p, q :: p in input && q in input ==> !TextAgainstTime(p, q)
  {
    AcceptedIff(input, sorted);
    GoodIff(input);
    if GoodSchedule(input) {
      forall p, q | p in input && q in input ensures Misordered(p, q) <==> TextAgainstTime(p, q) {
        assert ValidPeriod(p) && ValidPeriod(q);
      }
    }
  }

  // ----- the form -----

  /** Every bound of the form, written out. */
  lemma FieldsByNumbers(form: Form, zones: set<string>)
    ensures FieldsValid(form, zones) <==>
              && Text.Bytes(form.bio) <= 600 && form.category != 0
              && |form.skills| <= 20 && (forall s :: s in form.skills ==> Text.Bytes(s) <= 50)
              && 2 <= Text.Bytes(form.region) <= 120
              && 1 <= form.radiusKm <= 200
              && (form.priceCents == None || 0 <= form.priceCents.value <= 100_000_000)
              && ((form.latitude == None && form.longitude == None)
                  || (form.latitude.Some? && form.longitude.Some?
                      && -90.0 <= form.latitude.value <= 90.0 && -180.0 <= form.longitude.value <= 180.0))
              && form.timezone != "" && form.timezone in zones
  {
  }

  lemma AcceptedByNumbers(form: Form, zones: set<string>)
    ensures Accepted(form, zones) <==>
              && FieldsValid(form, zones) && |form.periods| <= 21 && NothingTwice(form.periods)
              && forall p, q :: p in form.periods && q in form.periods ==> !TextAgainstTime(p, q)
  {
    GoodIff(form.periods);
    if GoodSchedule(form.periods) {
      forall p, q | p in form.periods && q in form.periods ensures Misordered(p, q) <==> TextAgainstTime(p, q) {
        assert ValidPeriod(p) && ValidPeriod(q);
      }
    }
  }

  /** The row after an accepted update, column by column: what was sent, trimmed, the location that was sent
      or else the one it had. */
  lemma StoredColumns(current: Details, input: Form, lower: Lowering)
    ensures var d := Merged(current, Normalized(input, lower));
            && d.bio == TrimSpace(input.bio) && d.region == TrimSpace(input.region)
            && d.timezone == TrimSpace(input.timezone) && d.skills == NormalSkills(input.skills, lower)
            && d.category == input.category && d.radiusKm == input.radiusKm && d.priceCents == input.priceCents
            && d.availableNow == input.availableNow
            && d.location == (if input.latitude.Some? && input.longitude.Some?
                              then Some((input.latitude.value, input.longitude.value)) else current.location)
  {
  }

  // ----- reading back -----

  /** On an earlier weekday, or at an earlier time of the same one. */
  predicate ComesBefore(p: Period, q: Period) {
    && ParseClock(p.start).Some? && ParseClock(q.start).Some?
    && (p.weekday < q.weekday
        || (p.weekday == q.weekday && ParseClock(p.start).value < ParseClock(q.start).value))
  }

  /** What is read back comes by weekday and by the time of day. */
  lemma ReadBackByTime(input: seq<Period>, listing: seq<Row>, i: nat, j: nat)
    requires GoodSchedule(input) && IsListing(RowsOf(input), listing) && i < j < |listing|
    ensures TableRows(listing) && ComesBefore(ReadBack(listing)[i], ReadBack(listing)[j])
  {
    AcceptedRows(input);
    StoredRowsSeparate(RowsOf(input), listing);
    RowShown(listing, i);
    RowShown(listing, j);
    assert RowBefore(listing[i], listing[j]);
  }

  ghost predicate Shows(periods: seq<Period>, p: Period) {
    exists k :: 0 <= k < |periods| && SameTimes(p, periods[k])
  }

  /** It shows the very times that were sent, and no others. */
  lemma ReadBackShows(input: seq<Period>, listing: seq<Row>)
    requires GoodSchedule(input) && IsListing(RowsOf(input), listing)
    ensures TableRows(listing) && |listing| == |input|
    ensures forall p :: p in input ==> Shows(ReadBack(listing), p)
    ensures forall q :: q in ReadBack(listing) ==> Shows(input, q)
  {
    AcceptedRows(input);
    StoredRowsSeparate(RowsOf(input), listing);
    Listings.Elements(RowsOf(input), listing, RowBefore);
    DistinctRows(input);
    forall p | p in input ensures Shows(ReadBack(listing), p) {
      SentIsShown(input, listing, p);
    }
    forall q | q in ReadBack(listing) ensures Shows(input, q) {
      var k :| 0 <= k < |listing| && ReadBack(listing)[k] == q;
      ShownWasSent(input, listing, k);
    }
  }

  lemma {:induction false} DistinctRows(periods: seq<Period>)
    requires forall i, j :: 0 <= i < j < |periods| ==> RowOf(periods[i]) != RowOf(periods[j])
    ensures |RowsOf(periods)| == |periods|
  {
    if |periods| > 0 {
      var n := |periods| - 1;
      DistinctRows(periods[..n]);
      assert periods == periods[..n] + [periods[n]];
      assert RowsOf(periods) == RowsOf(periods[..n]) + {RowOf(periods[n])};
      assert RowOf(periods[n]) !in RowsOf(periods[..n]);
    }
  }

  lemma SentIsShown(input: seq<Period>, listing: seq<Row>, p: Period)
    requires GoodSchedule(input) && TableRows(listing) && p in input && RowOf(p) in listing
    ensures Shows(ReadBack(listing), p)
  {
    var k :| 0 <= k < |listing| && listing[k] == RowOf(p);
    RowShown(listing, k);
    SameRowSameTimes(input, p, ReadBack(listing)[k]);
  }

  lemma ShownWasSent(input: seq<Period>, listing: seq<Row>, k: nat)
    requires GoodSchedule(input) && TableRows(listing) && k < |listing| && listing[k] in RowsOf(input)
    ensures Shows(input, ReadBack(listing)[k])
  {
    var p :| p in input && RowOf(p) == listing[k];
    RowShown(listing, k);
    SameRowSameTimes(input, p, ReadBack(listing)[k]);
    var m :| 0 <= m < |input| && input[m] == p;
    assert SameTimes(ReadBack(listing)[k], input[m]);
  }

  predicate SameTimes(p: Period, q: Period) {
    && p.weekday == q.weekday && ParseClock(p.start).Some? && ParseClock(p.end).Some?
    && ParseClock(p.start) == ParseClock(q.start) && ParseClock(p.end) == ParseClock(q.end)
  }

  lemma RowShown(listing: seq<Row>, k: nat)
    requires TableRows(listing) && k < |listing|
    ensures var q := ReadBack(listing)[k];
            && q.weekday == listing[k].weekday
            && ParseClock(q.start) == Some(listing[k].start) && ParseClock(q.end) == Some(listing[k].end)
  {
    assert TableRow(listing[k]);
    ParseFormatted(listing[k].start);
    ParseFormatted(listing[k].end);
  }

  lemma SameRowSameTimes(input: seq<Period>, p: Period, q: Period)
    requires GoodSchedule(input) && p in input
    requires q.weekday == RowOf(p).weekday
    requires ParseClock(q.start) == Some(RowOf(p).start) && ParseClock(q.end) == Some(RowOf(p).end)
    ensures SameTimes(p, q)
  {
    assert ValidPeriod(p);
  }
}
