/**
 The weekly schedule validator: sort by weekday and by the start time as a string, then compare
 neighbours. What it accepts is characterised here without sorting.
 */
module Schedule {
  import opened Wrappers
  import opened Clock
  import Listings

  const MAX_PERIODS := 21

  datatype Period = Period(weekday: int, start: string, end: string)

  /** The comparison given to the sort. */
  predicate Before(p: Period, q: Period) {
    if p.weekday == q.weekday then Less(p.start, q.start) else p.weekday < q.weekday
  }

  /** A possible result of the unstable sort: equal keys may come in any order. */
  ghost predicate IsSortOf(input: seq<Period>, sorted: seq<Period>) {
    multiset(sorted) == multiset(input) && IsSorted(sorted)
  }

  ghost predicate IsSorted(sorted: seq<Period>) {
    forall i, j :: 0 <= i < j < |sorted| ==> !Before(sorted[j], sorted[i])
  }

  predicate ValidPeriod(p: Period) {
    && 0 <= p.weekday <= 6
    && ParseClock(p.start).Some? && ParseClock(p.end).Some?
    && Start(p) < End(p)
  }

  function Start(p: Period): Micros {
    match ParseClock(p.start) case Some(t) => t case None => 0
  }

  function End(p: Period): Micros {
    match ParseClock(p.end) case Some(t) => t case None => 0
  }

  /** A period as times, the way the table holds it. */
  datatype Row = Row(weekday: int, start: Micros, end: Micros)

  function RowOf(p: Period): Row {
    Row(p.weekday, Start(p), End(p))
  }

  predicate Disjoint(p: Period, q: Period) {
    p.weekday == q.weekday ==> End(p) <= Start(q) || End(q) <= Start(p)
  }

  /** The two periods would be sorted against the clock. */
  predicate Misordered(p: Period, q: Period) {
    p.weekday == q.weekday && Start(p) < Start(q) && Less(q.start, p.start)
  }

  /** What the validator is for. */
  ghost predicate GoodSchedule(periods: seq<Period>) {
    && (forall i :: 0 <= i < |periods| ==> ValidPeriod(periods[i]))
    && (forall i, j :: 0 <= i < j < |periods| ==> Disjoint(periods[i], periods[j]))
  }

  ghost predicate OrderAgrees(periods: seq<Period>) {
    forall p, q :: p in periods && q in periods ==> !Misordered(p, q)
  }

  /** The scan over the sorted periods. */
  predicate ScanAccepts(sorted: seq<Period>) {
    forall k :: 0 <= k < |sorted| ==> ValidPeriod(sorted[k]) && FollowsPrevious(sorted, k)
  }

  predicate FollowsPrevious(sorted: seq<Period>, k: nat)
    requires k < |sorted|
  {
    k > 0 && sorted[k - 1].weekday == sorted[k].weekday ==> End(sorted[k - 1]) <= Start(sorted[k])
  }

  // ----- the scan over plain times -----

  function RowSeq(periods: seq<Period>): seq<Row> {
    seq(|periods|, k requires 0 <= k < |periods| => RowOf(periods[k]))
  }

  ghost predicate RowsScanned(rows: seq<Row>) {
    && (forall k :: 0 <= k < |rows| ==> rows[k].start < rows[k].end)
    && (forall j, k :: 0 <= j < |rows| && k == j + 1 && k < |rows| && rows[j].weekday == rows[k].weekday ==>
          rows[j].end <= rows[k].start)
  }

  ghost predicate WeekdaysAscend(rows: seq<Row>) {
    forall j, k :: 0 <= j < k < |rows| ==> rows[j].weekday <= rows[k].weekday
  }

  lemma {:induction false} RowsSeparate(rows: seq<Row>, i: nat, j: nat)
    requires RowsScanned(rows) && WeekdaysAscend(rows)
    requires i < j < |rows| && rows[i].weekday == rows[j].weekday
    ensures rows[i].end <= rows[j].start
    decreases j
  {
    var k := j - 1;
    if i < k {
      RowsSeparate(rows, i, k);
    }
    assert rows[k].end <= rows[j].start;
  }

  lemma SortedWeekdays(sorted: seq<Period>)
    requires IsSorted(sorted)
    ensures WeekdaysAscend(RowSeq(sorted))
  {
    forall i, j | 0 <= i < j < |sorted| ensures sorted[i].weekday <= sorted[j].weekday {
      assert !Before(sorted[j], sorted[i]);
    }
  }

  lemma AcceptedRowsScanned(sorted: seq<Period>)
    requires ScanAccepts(sorted)
    ensures RowsScanned(RowSeq(sorted))
  {
    var rows := RowSeq(sorted);
    forall k | 0 <= k < |rows| ensures rows[k].start < rows[k].end {
      assert ValidPeriod(sorted[k]);
    }
    forall j, k | 0 <= j < |rows| && k == j + 1 && k < |rows| && rows[j].weekday == rows[k].weekday
      ensures rows[j].end <= rows[k].start
    {
      assert FollowsPrevious(sorted, k);
    }
  }

  lemma ScanSeparates(sorted: seq<Period>, i: nat, j: nat)
    requires IsSorted(sorted) && ScanAccepts(sorted)
    requires i < j < |sorted| && sorted[i].weekday == sorted[j].weekday
    ensures End(sorted[i]) <= Start(sorted[j])
  {
    var rows := RowSeq(sorted);
    SortedWeekdays(sorted);
    AcceptedRowsScanned(sorted);
    assert rows[i] == RowOf(sorted[i]) && rows[j] == RowOf(sorted[j]);
    RowsSeparate(rows, i, j);
  }

  lemma ScanIsSound(sorted: seq<Period>)
    requires IsSorted(sorted) && ScanAccepts(sorted)
    ensures GoodSchedule(sorted) && OrderAgrees(sorted)
  {
    forall i, j | 0 <= i < j < |sorted| ensures Disjoint(sorted[i], sorted[j]) {
      if sorted[i].weekday == sorted[j].weekday { ScanSeparates(sorted, i, j); }
    }
    forall p, q | p in sorted && q in sorted ensures !Misordered(p, q) {
      var i :| 0 <= i < |sorted| && sorted[i] == p;
      var j :| 0 <= j < |sorted| && sorted[j] == q;
      if p.weekday == q.weekday && Start(p) < Start(q) {
        if j < i { ScanSeparates(sorted, j, i); }
        assert !Before(sorted[j], sorted[i]);
      }
    }
  }

  lemma ScanIsComplete(sorted: seq<Period>)
    requires IsSorted(sorted) && GoodSchedule(sorted) && OrderAgrees(sorted)
    ensures ScanAccepts(sorted)
  {
    forall k: nat | k < |sorted| ensures ValidPeriod(sorted[k]) && FollowsPrevious(sorted, k) {
      if k > 0 && sorted[k - 1].weekday == sorted[k].weekday {
        var p, q := sorted[k - 1], sorted[k];
        assert Disjoint(p, q) && ValidPeriod(p) && ValidPeriod(q);
        assert !Misordered(q, p) && !Before(q, p);
        LessIsTotal(p.start, q.start);
      }
    }
  }

  // ----- the same set of periods in another order -----

  lemma {:induction false} Occurrences(xs: seq<Period>, x: Period) returns (i: nat, j: nat)
    requires multiset(xs)[x] >= 2
    ensures i < j < |xs| && xs[i] == x && xs[j] == x
  {
    var n := |xs|;
    assert xs == xs[..n - 1] + [xs[n - 1]];
    if xs[n - 1] == x {
      assert multiset(xs[..n - 1])[x] >= 1;
      assert x in xs[..n - 1];
      i :| 0 <= i < n - 1 && xs[..n - 1][i] == x;
      j := n - 1;
    } else {
      i, j := Occurrences(xs[..n - 1], x);
    }
  }

  /** A good schedule stays good when its periods are listed in another order. */
  lemma GoodInAnyOrder(a: seq<Period>, b: seq<Period>)
    requires multiset(a) == multiset(b) && GoodSchedule(a)
    ensures GoodSchedule(b)
  {
    forall p | p in b ensures p in a {
      assert p in multiset(b);
    }
    forall i | 0 <= i < |b| ensures ValidPeriod(b[i]) {
      assert b[i] in a;
    }
    forall i, j | 0 <= i < j < |b| ensures Disjoint(b[i], b[j]) {
      assert b[i] in a && b[j] in a;
      if b[i] == b[j] {
        Listings.CountTwo(b, i, j);
        var m, n := Occurrences(a, b[i]);
        assert Disjoint(a[m], a[n]) && ValidPeriod(a[m]);
      }
    }
  }

  lemma OrderAgreesInAnyOrder(a: seq<Period>, b: seq<Period>)
    requires multiset(a) == multiset(b)
    ensures OrderAgrees(a) <==> OrderAgrees(b)
  {
    forall p ensures p in a <==> p in b {
      assert p in multiset(a) <==> p in multiset(b);
    }
  }

  /** Exactly what is accepted, for any list and any order the sort gives ties: the periods are valid
      and do not overlap, and no two of one weekday are sorted against the clock. */
  lemma AcceptedIff(input: seq<Period>, sorted: seq<Period>)
    requires IsSortOf(input, sorted)
    ensures ScanAccepts(sorted) <==> GoodSchedule(input) && OrderAgrees(input)
  {
    OrderAgreesInAnyOrder(input, sorted);
    if ScanAccepts(sorted) {
      ScanIsSound(sorted);
      GoodInAnyOrder(sorted, input);
    }
    if GoodSchedule(input) && OrderAgrees(input) {
      GoodInAnyOrder(input, sorted);
      ScanIsComplete(sorted);
    }
  }

  lemma PaddedOrderAgrees(periods: seq<Period>)
    requires GoodSchedule(periods) && forall p :: p in periods ==> ZeroPadded(p.start)
    ensures OrderAgrees(periods)
  {
    forall p, q | p in periods && q in periods ensures !Misordered(p, q) {
      if Start(p) < Start(q) {
        PaddedOrder(p.start, q.start);
        LessIsTotal(p.start, q.start);
      }
    }
  }

  /** With hours of two digits the validator accepts exactly the good schedules. */
  lemma PaddedAcceptedIff(input: seq<Period>, sorted: seq<Period>)
    requires IsSortOf(input, sorted)
    requires forall p :: p in input ==> ZeroPadded(p.start)
    ensures ScanAccepts(sorted) <==> GoodSchedule(input)
  {
    AcceptedIff(input, sorted);
    if GoodSchedule(input) { PaddedOrderAgrees(input); }
  }

  /** Neither the order of the input nor the order of ties in the sort changes the verdict. */
  lemma VerdictIgnoresOrder(a: seq<Period>, b: seq<Period>, sortedA: seq<Period>, sortedB: seq<Period>)
    requires multiset(a) == multiset(b) && IsSortOf(a, sortedA) && IsSortOf(b, sortedB)
    ensures ScanAccepts(sortedA) <==> ScanAccepts(sortedB)
  {
    AcceptedIff(a, sortedA);
    AcceptedIff(a, sortedB);
  }

  const LATE_FIRST := [Period(1, "10:00", "11:00"), Period(1, "9:00", "9:30")]

  lemma LateFirstTimes()
    ensures ValidPeriod(LATE_FIRST[0]) && RowOf(LATE_FIRST[0]) == Row(1, 10 * HOUR, 11 * HOUR)
    ensures ValidPeriod(LATE_FIRST[1]) && RowOf(LATE_FIRST[1]) == Row(1, 9 * HOUR, 9 * HOUR + 30 * MINUTE)
  {
    assert "10:00"[2..] == ":00" && "11:00"[2..] == ":00" && "9:00"[1..] == ":00" && "9:30"[1..] == ":30";
  }

  lemma LateFirstIsSorted()
    ensures IsSortOf(LATE_FIRST, LATE_FIRST)
  {
    assert !Less("9:00", "10:00");
  }

  /** A good schedule that is refused, because "10:00" sorts before "9:00". */
  lemma UnpaddedRefused()
    ensures GoodSchedule(LATE_FIRST) && IsSortOf(LATE_FIRST, LATE_FIRST) && !ScanAccepts(LATE_FIRST)
  {
    LateFirstTimes();
    LateFirstIsSorted();
    var p, q := LATE_FIRST[0], LATE_FIRST[1];
    assert Start(p) == RowOf(p).start && End(p) == RowOf(p).end;
    assert Start(q) == RowOf(q).start && End(q) == RowOf(q).end;
    assert !FollowsPrevious(LATE_FIRST, 1);
  }

  /** The schedule part of the validation; `sorted` is what the library sort returned. */
  method ValidateSchedule(input: seq<Period>, sorted: seq<Period>) returns (ok: bool)
    requires IsSortOf(input, sorted)
    ensures ok <==> |input| <= MAX_PERIODS && GoodSchedule(input) && OrderAgrees(input)
  {
    AcceptedIff(input, sorted);
    if |input| > MAX_PERIODS {
      return false;
    }
    for index := 0 to |sorted|
      invariant forall k :: 0 <= k < index ==> ValidPeriod(sorted[k]) && FollowsPrevious(sorted, k)
    {
      var period := sorted[index];
      var start, end := ParseClock(period.start), ParseClock(period.end);
      if period.weekday < 0 || period.weekday > 6 || start.None? || end.None? || start.value >= end.value {
        return false;
      }
      if index > 0 && sorted[index - 1].weekday == period.weekday {
        var previousEnd := ParseClock(sorted[index - 1].end);
        assert ValidPeriod(sorted[index - 1]);
        if previousEnd.value > start.value {
          assert !FollowsPrevious(sorted, index);
          return false;
        }
      }
    }
    return true;
  }
}
