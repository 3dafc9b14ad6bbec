/**
 Replacing a professional's profile and weekly schedule in the database, and reading them back.

 `commits` says whether every other statement of the transaction and its commit succeed; otherwise the
 transaction is rolled back.
 */
module ScheduleStore {
  import opened Wrappers
  import opened Clock
  import opened Schedule
  import opened ProfileForms
  import Listings

  /** The profile row, apart from its schedule and portfolio. */
  datatype Details = Details(
    bio: string,
    category: int,
    skills: seq<string>,
    region: string,
    location: Option<(real, real)>,
    radiusKm: int,
    priceCents: Option<int>,
    availableNow: bool,
    timezone: string)

  datatype Outcome = Updated | InvalidInput | NoProfile | LocationRequired | CategoryNotFound | ConstraintViolated
      | RolledBack

  predicate HasPoint(form: Form) {
    form.latitude.Some? && form.longitude.Some?
  }

  /** The row after an update: it keeps its location when the form sends none. */
  function Merged(current: Details, form: Form): Details {
    Details(form.bio, form.category, form.skills, form.region,
            if HasPoint(form) then Some((form.latitude.value, form.longitude.value)) else current.location,
            form.radiusKm, form.priceCents, form.availableNow, form.timezone)
  }

  function RowsOf(periods: seq<Period>): set<Row> {
    set p | p in periods :: RowOf(p)
  }

  /** A column value that a clock string can have produced. */
  predicate OnTheMinute(t: Micros) {
    0 <= t < DAY && t % MINUTE == 0
  }

  /** The table's CHECK constraints, and what the rows of one profile owe to the validator. */
  predicate TableRow(r: Row) {
    0 <= r.weekday <= 6 && OnTheMinute(r.start) && OnTheMinute(r.end) && r.start < r.end
  }

  predicate RowsApart(a: Row, b: Row) {
    a.weekday == b.weekday ==> a.end <= b.start || b.end <= a.start
  }

  ghost predicate Stored(rows: set<Row>) {
    && (forall r :: r in rows ==> TableRow(r))
    && (forall a, b :: a in rows && b in rows && a != b ==> RowsApart(a, b))
  }

  lemma AcceptedRows(periods: seq<Period>)
    requires GoodSchedule(periods)
    ensures Stored(RowsOf(periods))
    ensures forall i, j :: 0 <= i < j < |periods| ==> RowOf(periods[i]) != RowOf(periods[j])
  {
    forall r | r in RowsOf(periods) ensures TableRow(r) {
      var p :| p in periods && RowOf(p) == r;
      assert ValidPeriod(p);
      ParsedRange(p.start);
      ParsedRange(p.end);
    }
    forall a, b | a in RowsOf(periods) && b in RowsOf(periods) && a != b ensures RowsApart(a, b) {
      var p :| p in periods && RowOf(p) == a;
      var q :| q in periods && RowOf(q) == b;
      var i :| 0 <= i < |periods| && periods[i] == p;
      var j :| 0 <= j < |periods| && periods[j] == q;
      if i < j { assert Disjoint(periods[i], periods[j]); } else { assert Disjoint(periods[j], periods[i]); }
    }
    forall i, j | 0 <= i < j < |periods| ensures RowOf(periods[i]) != RowOf(periods[j]) {
      assert Disjoint(periods[i], periods[j]) && ValidPeriod(periods[i]);
    }
  }

  lemma RowIsNew(periods: seq<Period>, k: nat)
    requires GoodSchedule(periods) && k < |periods|
    ensures RowOf(periods[k]) !in RowsOf(periods[..k])
  {
    AcceptedRows(periods);
    forall p | p in periods[..k] ensures RowOf(p) != RowOf(periods[k]) {
      var j :| 0 <= j < k && periods[j] == p;
      assert RowOf(periods[j]) != RowOf(periods[k]);
    }
  }

  class ProfileStore {
    var details: map<int, Details>
    var availabilities: map<int, set<Row>>

    ghost predicate Valid()
      reads this
    {
      availabilities.Keys == details.Keys && forall user :: user in availabilities ==> Stored(availabilities[user])
    }

    constructor (profiles: map<int, Details>)
      ensures Valid() && details == profiles
    {
      details := profiles;
      availabilities := map user | user in profiles :: {};
    }

    /** `sorted` is what the library sort returned for the periods. No accepted schedule is refused
        by the constraints of the table. */
    method UpdateProfile(user: int, input: Form, lower: Lowering, zones: set<string>, activeCategories: set<int>,
                         sorted: seq<Period>, commits: bool)
      returns (outcome: Outcome)
      requires Valid() && IsSortOf(input.periods, sorted)
      modifies this
      ensures Valid()
      ensures outcome == (
                if !Accepted(Normalized(input, lower), zones) then InvalidInput
                else if user !in old(details) then NoProfile
                else if old(details)[user].location.None? && !HasPoint(input) then LocationRequired
                else if input.category !in activeCategories then CategoryNotFound
                else if !commits then RolledBack
                else Updated)
      ensures outcome == Updated ==>
                && details == old(details)[user := Merged(old(details)[user], Normalized(input, lower))]
                && availabilities == old(availabilities)[user := RowsOf(input.periods)]
      ensures outcome != Updated ==> details == old(details) && availabilities == old(availabilities)
    {
      var skills := NormalizeSkills(input.skills, lower);
      var form := input.(bio := TrimSpace(input.bio), region := TrimSpace(input.region),
                         timezone := TrimSpace(input.timezone), skills := skills);
      var ok := ValidateForm(form, zones, sorted);
      if !ok {
        return InvalidInput;
      }
      if user !in details {
        return NoProfile;
      }
      var current := details[user];
      if current.location.None? && !HasPoint(form) {
        return LocationRequired;
      }
      if form.category !in activeCategories {
        return CategoryNotFound;
      }
      var stored, rows := ReplaceRows(form.periods);
      if !stored {
        return ConstraintViolated;
      }
      if !commits {
        return RolledBack;
      }
      details := details[user := Merged(current, form)];
      availabilities := availabilities[user := rows];
      return Updated;
    }

    /** The rows of the profile inside the transaction: deleted, then inserted one by one. */
    method ReplaceRows(periods: seq<Period>) returns (stored: bool, rows: set<Row>)
      requires GoodSchedule(periods)
      ensures stored && rows == RowsOf(periods) && Stored(rows)
    {
      rows := {};
      AcceptedRows(periods);
      for k := 0 to |periods|
        invariant rows == RowsOf(periods[..k])
      {
        var period := periods[k];
        var start, end := ParseClock(period.start), ParseClock(period.end);
        assert ValidPeriod(periods[k]);
        var row := Row(period.weekday, start.value, end.value);
        RowIsNew(periods, k);
        if row.start >= row.end || row in rows {
          return false, rows;
        }
        assert periods[..k + 1] == periods[..k] + [period];
        rows := rows + {row};
      }
      assert periods[..|periods|] == periods;
      return true, rows;
    }
  }

  // ----- reading back -----

  /** ORDER BY weekday, start_time. */
  predicate RowBefore(a: Row, b: Row) {
    a.weekday < b.weekday || (a.weekday == b.weekday && a.start < b.start)
  }

  ghost predicate IsListing(rows: set<Row>, listing: seq<Row>) {
    Listings.IsListing(rows, listing, RowBefore)
  }

  function Shown(r: Row): Period
    requires TableRow(r)
  {
    Period(r.weekday, FormatClock(r.start), FormatClock(r.end))
  }

  ghost predicate TableRows(listing: seq<Row>) {
    forall k :: 0 <= k < |listing| ==> TableRow(listing[k])
  }

  ghost function ReadBack(listing: seq<Row>): seq<Period>
    requires TableRows(listing)
  {
    seq(|listing|, k requires 0 <= k < |listing| => Shown(listing[k]))
  }

  /** Rows that do not overlap differ in weekday or start, so a listing has no ties. */
  lemma StoredRowsSeparate(rows: set<Row>, listing: seq<Row>)
    requires Stored(rows) && IsListing(rows, listing)
    ensures TableRows(listing) && Listings.Separates(rows, RowBefore) && Listings.Strict(listing, RowBefore)
    ensures forall r :: r in listing <==> r in rows
  {
    Listings.Elements(rows, listing, RowBefore);
    forall a, b | a in rows && b in rows && a != b ensures RowBefore(a, b) != RowBefore(b, a) {
      assert RowsApart(a, b) && TableRow(a) && TableRow(b);
    }
    Listings.ListingIsStrict(rows, listing, RowBefore);
  }

  /** The period as the profile shows it. */
  function Canonical(p: Period): Period
    requires ValidPeriod(p)
  {
    ParsedRange(p.start);
    ParsedRange(p.end);
    Period(p.weekday, FormatClock(Start(p)), FormatClock(End(p)))
  }

  /** The input sorted by weekday and by the clock. */
  ghost predicate IsClockSort(input: seq<Period>, byClock: seq<Period>) {
    && multiset(byClock) == multiset(input)
    && forall i, j :: 0 <= i < j < |byClock| ==> !RowBefore(RowOf(byClock[j]), RowOf(byClock[i]))
  }

  lemma RowSeqElements(periods: seq<Period>, r: Row)
    ensures r in RowSeq(periods) <==> r in RowsOf(periods)
  {
    if r in RowSeq(periods) {
      var k :| 0 <= k < |periods| && RowSeq(periods)[k] == r;
      assert periods[k] in periods;
    }
    if r in RowsOf(periods) {
      var p :| p in periods && RowOf(p) == r;
      var k :| 0 <= k < |periods| && periods[k] == p;
      assert RowSeq(periods)[k] == r;
    }
  }

  lemma ClockSortIsStrict(byClock: seq<Period>)
    requires GoodSchedule(byClock) && IsClockSort(byClock, byClock)
    ensures Listings.Strict(RowSeq(byClock), RowBefore)
  {
    forall i, j | 0 <= i < j < |byClock| ensures RowBefore(RowOf(byClock[i]), RowOf(byClock[j])) {
      assert !RowBefore(RowOf(byClock[j]), RowOf(byClock[i]));
      assert Disjoint(byClock[i], byClock[j]) && ValidPeriod(byClock[i]) && ValidPeriod(byClock[j]);
    }
  }

  lemma ListingIsClockSort(input: seq<Period>, listing: seq<Row>, byClock: seq<Period>)
    requires GoodSchedule(input) && IsClockSort(input, byClock) && IsListing(RowsOf(input), listing)
    ensures GoodSchedule(byClock) && TableRows(listing) && listing == RowSeq(byClock)
  {
    AcceptedRows(input);
    GoodInAnyOrder(input, byClock);
    StoredRowsSeparate(RowsOf(input), listing);
    ClockSortIsStrict(byClock);
    forall p ensures p in byClock <==> p in input {
      assert p in multiset(byClock) <==> p in multiset(input);
    }
    forall r ensures r in RowSeq(byClock) <==> r in listing {
      RowSeqElements(byClock, r);
    }
    Listings.StrictIsUnique(RowSeq(byClock), listing, RowBefore);
  }

  /** Reading back an accepted schedule gives its clock sort, each time in canonical form. */
  lemma ReadBackIsCanonical(input: seq<Period>, listing: seq<Row>, byClock: seq<Period>)
    requires GoodSchedule(input) && IsClockSort(input, byClock) && IsListing(RowsOf(input), listing)
    ensures TableRows(listing) && GoodSchedule(byClock) && |listing| == |byClock|
    ensures forall k :: 0 <= k < |byClock| ==> ReadBack(listing)[k] == Canonical(byClock[k])
  {
    ListingIsClockSort(input, listing, byClock);
    forall k | 0 <= k < |byClock| ensures ReadBack(listing)[k] == Canonical(byClock[k]) {
      assert listing[k] == RowOf(byClock[k]) && ValidPeriod(byClock[k]);
    }
  }

  lemma ShownRoundTrip(r: Row)
    requires TableRow(r)
    ensures ValidPeriod(Shown(r)) && RowOf(Shown(r)) == r && ZeroPadded(Shown(r).start)
  {
    ParseFormatted(r.start);
    ParseFormatted(r.end);
  }

  lemma ReadBackIsGood(rows: set<Row>, listing: seq<Row>)
    requires Stored(rows) && IsListing(rows, listing) && TableRows(listing)
    ensures var shown := ReadBack(listing);
            && GoodSchedule(shown)
            && (forall p :: p in shown ==> ZeroPadded(p.start))
            && (forall k :: 0 <= k < |listing| ==> RowOf(shown[k]) == listing[k])
  {
    var shown := ReadBack(listing);
    Listings.Elements(rows, listing, RowBefore);
    forall k | 0 <= k < |listing|
      ensures ValidPeriod(shown[k]) && RowOf(shown[k]) == listing[k] && ZeroPadded(shown[k].start)
    {
      ShownRoundTrip(listing[k]);
    }
    forall i, j | 0 <= i < j < |shown| ensures Disjoint(shown[i], shown[j]) {
      assert RowsApart(listing[i], listing[j]);
      assert RowOf(shown[i]) == listing[i] && RowOf(shown[j]) == listing[j];
    }
  }

  lemma ReadBackKeepsRows(rows: set<Row>, listing: seq<Row>)
    requires Stored(rows) && IsListing(rows, listing) && TableRows(listing)
    ensures RowsOf(ReadBack(listing)) == rows
  {
    var shown := ReadBack(listing);
    ReadBackIsGood(rows, listing);
    Listings.Elements(rows, listing, RowBefore);
    forall r ensures r in RowsOf(shown) <==> r in rows {
      if r in rows {
        var k :| 0 <= k < |listing| && listing[k] == r;
        assert shown[k] in shown && RowOf(shown[k]) == r;
      }
    }
  }

  /** Resubmitting what was read back is accepted, however the sort treats it, stores the same rows,
      and so reads back the same. */
  lemma ResubmissionIsStable(rows: set<Row>, listing: seq<Row>, sorted: seq<Period>, next: seq<Row>)
    requires Stored(rows) && IsListing(rows, listing) && TableRows(listing)
    requires IsSortOf(ReadBack(listing), sorted)
    requires IsListing(RowsOf(ReadBack(listing)), next)
    ensures GoodSchedule(ReadBack(listing)) && ScanAccepts(sorted)
    ensures RowsOf(ReadBack(listing)) == rows
    ensures next == listing
  {
    ReadBackIsGood(rows, listing);
    PaddedAcceptedIff(ReadBack(listing), sorted);
    ReadBackKeepsRows(rows, listing);
    StoredRowsSeparate(rows, listing);
    Listings.ListingIsUnique(rows, next, listing, RowBefore);
  }

  // ----- the whole profile -----

  /** The form a client fills from the profile it was shown; the location itself is not shown. */
  function FormOf(d: Details, periods: seq<Period>): Form {
    Form(d.bio, d.category, d.skills, d.region, None, None, d.radiusKm, d.priceCents, d.availableNow,
         d.timezone, periods)
  }

  lemma {:induction false} RowsOfSize(periods: seq<Period>)
    ensures |RowsOf(periods)| <= |periods|
  {
    if |periods| > 0 {
      var n := |periods| - 1;
      RowsOfSize(periods[..n]);
      assert periods == periods[..n] + [periods[n]];
      assert RowsOf(periods) == RowsOf(periods[..n]) + {RowOf(periods[n])};
    }
  }

  /** The fields of an accepted form come back in normal form and valid. */
  lemma ShownFieldsAreNormal(current: Details, input: Form, lower: Lowering, zones: set<string>, periods: seq<Period>)
    requires FieldsValid(Normalized(input, lower), zones)
    ensures var form := FormOf(Merged(current, Normalized(input, lower)), periods);
            Normalized(form, lower) == form && FieldsValid(form, zones)
  {
    NormalizedTwice(input, lower);
  }

  /** After an accepted update the profile that is read back can be sent again: the validator accepts it
      unchanged, and it leaves the row, the location and the periods as they are. */
  lemma ProfileResubmission(current: Details, input: Form, lower: Lowering, zones: set<string>, listing: seq<Row>)
    requires Accepted(Normalized(input, lower), zones)
    requires IsListing(RowsOf(input.periods), listing)
    ensures TableRows(listing)
    ensures var d := Merged(current, Normalized(input, lower));
            var form := FormOf(d, ReadBack(listing));
            && Normalized(form, lower) == form && Accepted(form, zones)
            && Merged(d, form) == d && RowsOf(form.periods) == RowsOf(input.periods)
  {
    var rows := RowsOf(input.periods);
    AcceptedRows(input.periods);
    StoredRowsSeparate(rows, listing);
    ReadBackIsGood(rows, listing);
    ReadBackKeepsRows(rows, listing);
    PaddedOrderAgrees(ReadBack(listing));
    RowsOfSize(input.periods);
    Listings.Elements(rows, listing, RowBefore);
    ShownFieldsAreNormal(current, input, lower, zones, ReadBack(listing));
  }
}
