/**
 The paged professional search. Distances come from the database as given; the ORDER BY works on the
 distance as it is shown, rounded to a tenth of a kilometre, then on the update time, then on the id.
 */
module Search {
  import Listings

  const MAX_PAGE := 100000
  const MAX_PAGE_SIZE := 50
  const MAX_RADIUS := 200
  const NO_CATEGORY := 0 // the nil id

  datatype Professional = Professional(
    id: int,
    metres: real, // from the point of the search
    category: int,
    accountActive: bool,
    emailVerified: bool,
    hasLocation: bool,
    serviceRadiusKm: int,
    availableNow: bool,
    updatedAt: int)

  datatype SearchInput = SearchInput(
    category: int,
    latitude: real,
    longitude: real,
    radiusKm: int,
    availableNowOnly: bool,
    page: int,
    pageSize: int)

  /** What the queries of a search see. */
  datatype Snapshot = Snapshot(professionals: set<Professional>, activeCategories: set<int>)

  datatype SearchPage = SearchPage(items: seq<Professional>, page: int, pageSize: int, total: nat, totalPages: nat)

  predicate ValidInput(input: SearchInput) {
    && input.category != NO_CATEGORY
    && -90.0 <= input.latitude <= 90.0 && -180.0 <= input.longitude <= 180.0
    && 1 <= input.radiusKm <= MAX_RADIUS && 1 <= input.page <= MAX_PAGE && 1 <= input.pageSize <= MAX_PAGE_SIZE
  }

  predicate Matches(p: Professional, input: SearchInput) {
    && p.accountActive && p.emailVerified
    && p.category == input.category
    && p.hasLocation
    && (!input.availableNowOnly || p.availableNow)
    && p.metres <= (Min(input.radiusKm, p.serviceRadiusKm) * 1000) as real
  }

  function Matching(snapshot: Snapshot, input: SearchInput): set<Professional> {
    set p | p in snapshot.professionals && p.category in snapshot.activeCategories && Matches(p, input)
  }

  /** Tenths of a kilometre. */
  function ShownDistance(p: Professional): int {
    (p.metres / 100.0 + 0.5).Floor
  }

  predicate Before(a: Professional, b: Professional) {
    || ShownDistance(a) < ShownDistance(b)
    || (ShownDistance(a) == ShownDistance(b)
        && (a.updatedAt > b.updatedAt || (a.updatedAt == b.updatedAt && a.id < b.id)))
  }

  /** Ids are primary keys. */
  ghost predicate DistinctIds(snapshot: Snapshot) {
    forall a, b :: a in snapshot.professionals && b in snapshot.professionals && a.id == b.id ==> a == b
  }

  ghost predicate IsRanking(snapshot: Snapshot, input: SearchInput, ranking: seq<Professional>) {
    Listings.IsListing(Matching(snapshot, input), ranking, Before)
  }

  // ----- the arithmetic of the page -----

  /** The int32 that Go keeps of a result. */
  function Int32(n: int): int {
    (n + 0x8000_0000) % 0x1_0000_0000 - 0x8000_0000
  }

  function PageOffset(input: SearchInput): int {
    Int32((input.page - 1) * input.pageSize)
  }

  function TotalPages(total: nat, pageSize: int): nat
    requires pageSize > 0
  {
    if total > 0 then (total + pageSize - 1) / pageSize else 0
  }

  lemma OffsetNeverWraps(input: SearchInput)
    requires ValidInput(input)
    ensures PageOffset(input) == (input.page - 1) * input.pageSize
    ensures 0 <= PageOffset(input) < 0x8000_0000
  {
    MulMono(0, input.page - 1, input.pageSize);
    MulMono(input.page - 1, MAX_PAGE - 1, input.pageSize);
    Int32Fits((input.page - 1) * input.pageSize);
  }

  lemma Int32Fits(n: int)
    requires -0x8000_0000 <= n < 0x8000_0000
    ensures Int32(n) == n
  {
  }

  function Min(a: int, b: int): int {
    if a < b then a else b
  }

  /** LIMIT and OFFSET. */
  function Slice<T>(rows: seq<T>, offset: nat, limit: nat): seq<T> {
    rows[Min(offset, |rows|)..Min(offset + limit, |rows|)]
  }

  /** A possible answer of one search; each search sorts anew. */
  ghost predicate IsAnswer(snapshot: Snapshot, input: SearchInput, answer: SearchPage)
    requires ValidInput(input)
  {
    && answer.page == input.page && answer.pageSize == input.pageSize
    && answer.total == |Matching(snapshot, input)|
    && answer.totalPages == TotalPages(answer.total, input.pageSize)
    && PageOffset(input) >= 0
    && exists ranking ::
         IsRanking(snapshot, input, ranking) && answer.items == Slice(ranking, PageOffset(input), input.pageSize)
  }

  /** The id breaks every tie, so all searches of one snapshot see the same ranking. */
  lemma RankingIsUnique(snapshot: Snapshot, input: SearchInput, a: seq<Professional>, b: seq<Professional>)
    requires DistinctIds(snapshot) && IsRanking(snapshot, input, a) && IsRanking(snapshot, input, b)
    ensures a == b
  {
    var rows := Matching(snapshot, input);
    forall p, q | p in rows && q in rows && p != q ensures Before(p, q) != Before(q, p) {
      assert p.id != q.id;
    }
    Listings.ListingIsUnique(rows, a, b, Before);
  }

  lemma AnswerIsSlice(snapshot: Snapshot, input: SearchInput, answer: SearchPage, ranking: seq<Professional>)
    requires DistinctIds(snapshot) && ValidInput(input)
    requires IsAnswer(snapshot, input, answer) && IsRanking(snapshot, input, ranking)
    ensures |ranking| == answer.total
    ensures 0 <= (input.page - 1) * input.pageSize
    ensures answer.items == Slice(ranking, (input.page - 1) * input.pageSize, input.pageSize)
  {
    var other :| IsRanking(snapshot, input, other) && answer.items == Slice(other, PageOffset(input), input.pageSize);
    RankingIsUnique(snapshot, input, other, ranking);
    OffsetNeverWraps(input);
    Listings.Elements(Matching(snapshot, input), ranking, Before);
  }

  // ----- pages put together -----

  function Concat<T>(pages: seq<seq<T>>): seq<T> {
    if |pages| == 0 then [] else Concat(pages[..|pages| - 1]) + pages[|pages| - 1]
  }

  lemma CeilingBounds(total: nat, pageSize: int)
    requires pageSize > 0
    ensures (TotalPages(total, pageSize) - 1) * pageSize < total || total == 0
    ensures total <= TotalPages(total, pageSize) * pageSize
  {
    if total > 0 {
      var q, r := (total + pageSize - 1) / pageSize, (total + pageSize - 1) % pageSize;
      assert total + pageSize - 1 == q * pageSize + r;
      assert (q - 1) * pageSize == q * pageSize - pageSize;
    }
  }

  /** A page has items exactly when it is one of the total pages. */
  lemma PageNonEmptyIff(snapshot: Snapshot, input: SearchInput, answer: SearchPage, ranking: seq<Professional>)
    requires DistinctIds(snapshot) && ValidInput(input)
    requires IsAnswer(snapshot, input, answer) && IsRanking(snapshot, input, ranking)
    ensures answer.items != [] <==> input.page <= answer.totalPages
  {
    AnswerIsSlice(snapshot, input, answer, ranking);
    CeilingBounds(answer.total, input.pageSize);
    var size := input.pageSize;
    if input.page <= answer.totalPages {
      MulMono(input.page - 1, answer.totalPages - 1, size);
    } else {
      MulMono(answer.totalPages, input.page - 1, size);
    }
  }

  lemma MulMono(a: int, b: int, c: int)
    requires a <= b && c >= 0
    ensures a * c <= b * c
  {
  }

  function PageAt<T>(rows: seq<T>, size: nat, k: nat): seq<T> {
    Slice(rows, k * size, size)
  }

  lemma SliceExtends<T>(rows: seq<T>, offset: nat, size: nat)
    ensures rows[..Min(offset, |rows|)] + Slice(rows, offset, size) == rows[..Min(offset + size, |rows|)]
  {
  }

  lemma OnePageMore(k: nat, size: nat)
    ensures (k + 1) * size == k * size + size
  {
  }

  lemma {:induction false} FirstPages<T>(rows: seq<T>, size: nat, pages: seq<seq<T>>)
    requires forall k :: 0 <= k < |pages| ==> pages[k] == PageAt(rows, size, k)
    ensures Concat(pages) == rows[..Min(|pages| * size, |rows|)]
  {
    if |pages| > 0 {
      var n := |pages| - 1;
      FirstPages(rows, size, pages[..n]);
      var offset := n * size;
      assert Concat(pages[..n]) == rows[..Min(offset, |rows|)];
      assert pages[n] == Slice(rows, offset, size);
      SliceExtends(rows, offset, size);
      OnePageMore(n, size);
    }
  }

  /** The searches of all pages, one after the other on one snapshot. */
  ghost predicate AllPages(snapshot: Snapshot, input: SearchInput, answers: seq<SearchPage>)
    requires ValidInput(input.(page := 1))
  {
    && |answers| == TotalPages(|Matching(snapshot, input)|, input.pageSize)
    && |answers| <= MAX_PAGE
    && forall k :: 0 <= k < |answers| ==> IsAnswer(snapshot, input.(page := k + 1), answers[k])
  }

  lemma MatchingIgnoresPage(snapshot: Snapshot, input: SearchInput, page: int)
    ensures Matching(snapshot, input.(page := page)) == Matching(snapshot, input)
  {
    forall p ensures Matches(p, input.(page := page)) == Matches(p, input) {}
  }

  /** Put together, the pages are the ranking: every match exactly once, in order. */
  lemma PagesMakeTheRanking(snapshot: Snapshot, input: SearchInput, answers: seq<SearchPage>,
                            ranking: seq<Professional>)
    requires DistinctIds(snapshot) && ValidInput(input.(page := 1))
    requires AllPages(snapshot, input, answers) && IsRanking(snapshot, input, ranking)
    ensures Concat(seq(|answers|, k requires 0 <= k < |answers| => answers[k].items)) == ranking
    ensures multiset(ranking) == multiset(Matching(snapshot, input))
  {
    var pages := seq(|answers|, k requires 0 <= k < |answers| => answers[k].items);
    forall k | 0 <= k < |pages| ensures pages[k] == PageAt(ranking, input.pageSize, k) {
      MatchingIgnoresPage(snapshot, input, k + 1);
      AnswerIsSlice(snapshot, input.(page := k + 1), answers[k], ranking);
    }
    FirstPages(ranking, input.pageSize, pages);
    Listings.Elements(Matching(snapshot, input), ranking, Before);
    CeilingBounds(|ranking|, input.pageSize);
    assert ranking[..|ranking|] == ranking;
  }

  /** The pages one may ask for reach every match exactly when there are at most 100000 pages of them. */
  lemma EveryMatchReachableIff(snapshot: Snapshot, input: SearchInput, ranking: seq<Professional>)
    requires DistinctIds(snapshot) && ValidInput(input) && IsRanking(snapshot, input, ranking)
    ensures (forall p :: p in Matching(snapshot, input) ==> Reachable(ranking, input.pageSize, p))
              <==> |Matching(snapshot, input)| <= MAX_PAGE * input.pageSize
  {
    var size := input.pageSize;
    Listings.Elements(Matching(snapshot, input), ranking, Before);
    if |ranking| <= MAX_PAGE * size {
      forall p | p in Matching(snapshot, input) ensures Reachable(ranking, size, p) {
        var i :| 0 <= i < |ranking| && ranking[i] == p;
        PageOfIndex(ranking, size, i);
      }
    } else {
      var last := |ranking| - 1;
      assert ranking[last] in Matching(snapshot, input);
      forall page | 1 <= page <= MAX_PAGE ensures !OnPage(ranking, size, page, ranking[last]) {
        MulMono(page, MAX_PAGE, size);
        assert (page - 1) * size + size == page * size;
      }
    }
  }

  predicate OnPage(ranking: seq<Professional>, size: nat, page: int, p: Professional)
    requires page >= 1
  {
    MulMono(0, page - 1, size);
    p in Slice(ranking, (page - 1) * size, size)
  }

  ghost predicate Reachable(ranking: seq<Professional>, size: nat, p: Professional) {
    exists page :: 1 <= page <= MAX_PAGE && OnPage(ranking, size, page, p)
  }

  lemma PageOfIndex(ranking: seq<Professional>, size: nat, i: nat)
    requires size > 0 && i < |ranking| <= MAX_PAGE * size
    ensures Reachable(ranking, size, ranking[i])
  {
    var q, r := i / size, i % size;
    assert i == q * size + r;
    QuotientBelow(q, r, size, MAX_PAGE);
    InSlice(ranking, q * size, size, i);
    assert OnPage(ranking, size, q + 1, ranking[i]);
  }

  lemma QuotientBelow(q: nat, r: nat, size: nat, max: nat)
    requires q * size + r < max * size
    ensures q < max
  {
    if max <= q { MulMono(max, q, size); }
  }

  lemma InSlice<T>(rows: seq<T>, offset: nat, limit: nat, i: nat)
    requires offset <= i < offset + limit && i < |rows|
    ensures rows[i] in Slice(rows, offset, limit)
  {
    assert Slice(rows, offset, limit)[i - offset] == rows[i];
  }

  datatype SearchOutcome = Found(page: SearchPage) | InvalidInput | CategoryNotFound

  /** Search, given what the queries answered. */
  method SearchProfessionals(snapshot: Snapshot, input: SearchInput, ranking: seq<Professional>)
    returns (outcome: SearchOutcome)
    requires IsRanking(snapshot, input, ranking)
    ensures outcome == InvalidInput <==> !ValidInput(input)
    ensures outcome == CategoryNotFound <==> ValidInput(input) && input.category !in snapshot.activeCategories
    ensures outcome.Found? ==> IsAnswer(snapshot, input, outcome.page)
  {
    if input.category == NO_CATEGORY || input.latitude < -90.0 || input.latitude > 90.0
       || input.longitude < -180.0 || input.longitude > 180.0 {
      return InvalidInput;
    }
    if input.radiusKm < 1 || input.radiusKm > MAX_RADIUS || input.page < 1 || input.page > MAX_PAGE
       || input.pageSize < 1 || input.pageSize > MAX_PAGE_SIZE {
      return InvalidInput;
    }
    if input.category !in snapshot.activeCategories {
      return CategoryNotFound;
    }
    OffsetNeverWraps(input);
    var offset := Int32((input.page - 1) * input.pageSize);
    var total := |ranking|;
    var totalPages := 0;
    if total > 0 {
      totalPages := (total + input.pageSize - 1) / input.pageSize;
    }
    assert offset == PageOffset(input) && totalPages == TotalPages(total, input.pageSize);
    var answer := SearchPage(Slice(ranking, offset, input.pageSize), input.page, input.pageSize, total, totalPages);
    AnswerFromRanking(snapshot, input, ranking, answer);
    return Found(answer);
  }

  lemma AnswerFromRanking(snapshot: Snapshot, input: SearchInput, ranking: seq<Professional>, answer: SearchPage)
    requires ValidInput(input) && IsRanking(snapshot, input, ranking) && PageOffset(input) >= 0
    requires answer == SearchPage(Slice(ranking, PageOffset(input), input.pageSize), input.page, input.pageSize,
                                  |ranking|, TotalPages(|ranking|, input.pageSize))
    ensures IsAnswer(snapshot, input, answer)
  {
    Listings.Elements(Matching(snapshot, input), ranking, Before);
  }
}
