/**
 Who is found, in which order, and how the pages are cut, told on the columns and in metres. Nothing here
 goes through the comparison that the ranking is sorted by.
 */
module SearchLaws {
  import opened Search
  import Listings

  /** What may be asked for. */
  lemma SearchableIff(input: SearchInput)
    ensures ValidInput(input) <==>
              && input.category != 0
              && -90.0 <= input.latitude <= 90.0 && -180.0 <= input.longitude <= 180.0
              && 1 <= input.radiusKm <= 200 && 1 <= input.page <= 100_000 && 1 <= input.pageSize <= 50
  {
  }

  /** An account in good standing, of the category, that can be reached from the point: not farther away than
      the search asks nor than the professional serves. */
  predicate Found(snapshot: Snapshot, input: SearchInput, p: Professional) {
    && p in snapshot.professionals
    && p.accountActive && p.emailVerified && p.hasLocation
    && p.category == input.category && input.category in snapshot.activeCategories
    && (input.availableNowOnly ==> p.availableNow)
    && p.metres <= 1000.0 * (input.radiusKm as real)
    && p.metres <= 1000.0 * (p.serviceRadiusKm as real)
  }

  function Everyone(snapshot: Snapshot, input: SearchInput): set<Professional> {
    set p | p in snapshot.professionals && Found(snapshot, input, p)
  }

  lemma MatchingIsFound(snapshot: Snapshot, input: SearchInput, p: Professional)
    ensures p in Matching(snapshot, input) <==> Found(snapshot, input, p)
  {
  }

  /** `tenth` tenths of a kilometre is what the distance is rounded to: it is within 50 metres. */
  predicate ShownAs(p: Professional, tenth: int) {
    (100 * tenth - 50) as real <= p.metres < (100 * tenth + 50) as real
  }

  lemma RoundedOnce(p: Professional)
    ensures ShownAs(p, ShownDistance(p))
    ensures forall tenth :: ShownAs(p, tenth) ==> tenth == ShownDistance(p)
  {
    var x := p.metres / 100.0 + 0.5;
    assert x.Floor as real <= x < x.Floor as real + 1.0;
    forall tenth | ShownAs(p, tenth) ensures tenth == ShownDistance(p) {
      assert tenth as real <= x < tenth as real + 1.0;
    }
  }

  /** Nearer first as shown; then the one updated last; then the smaller id. */
  ghost predicate Precedes(a: Professional, b: Professional) {
    forall m, n :: ShownAs(a, m) && ShownAs(b, n) ==>
      m < n || (m == n && (a.updatedAt > b.updatedAt || (a.updatedAt == b.updatedAt && a.id < b.id)))
  }

  lemma RankedInOrder(snapshot: Snapshot, input: SearchInput, ranking: seq<Professional>, i: nat, j: nat)
    requires DistinctIds(snapshot) && IsRanking(snapshot, input, ranking) && i < j < |ranking|
    ensures Precedes(ranking[i], ranking[j])
  {
    var a, b := ranking[i], ranking[j];
    Listings.Elements(Matching(snapshot, input), ranking, Before);
    assert a in Matching(snapshot, input) && b in Matching(snapshot, input) && a.id != b.id;
    assert !Before(b, a);
    RoundedOnce(a);
    RoundedOnce(b);
  }

  ghost predicate InOrder(xs: seq<Professional>) {
    forall i, j :: 0 <= i < j < |xs| ==> Precedes(xs[i], xs[j])
  }

  lemma RankingInOrder(snapshot: Snapshot, input: SearchInput, ranking: seq<Professional>)
    requires DistinctIds(snapshot) && IsRanking(snapshot, input, ranking)
    ensures InOrder(ranking)
    ensures forall p :: p in ranking <==> Found(snapshot, input, p)
  {
    forall i, j | 0 <= i < j < |ranking| ensures Precedes(ranking[i], ranking[j]) {
      RankedInOrder(snapshot, input, ranking, i, j);
    }
    Listings.Elements(Matching(snapshot, input), ranking, Before);
    forall p ensures p in ranking <==> Found(snapshot, input, p) {
      MatchingIsFound(snapshot, input, p);
    }
  }

  lemma PartInOrder(xs: seq<Professional>, from: nat, to: nat)
    requires InOrder(xs) && from <= to <= |xs|
    ensures InOrder(xs[from..to]) && forall p :: p in xs[from..to] ==> p in xs
  {
    forall i, j | 0 <= i < j < to - from ensures Precedes(xs[from..to][i], xs[from..to][j]) {
      assert Precedes(xs[from + i], xs[from + j]);
    }
  }

  /** Every item of an answer was found, and items come nearest first. */
  lemma AnswerInOrder(snapshot: Snapshot, input: SearchInput, answer: SearchPage)
    requires DistinctIds(snapshot) && ValidInput(input) && IsAnswer(snapshot, input, answer)
    ensures forall p :: p in answer.items ==> Found(snapshot, input, p)
    ensures InOrder(answer.items)
  {
    var ranking :| IsRanking(snapshot, input, ranking)
                   && answer.items == Slice(ranking, PageOffset(input), input.pageSize);
    RankingInOrder(snapshot, input, ranking);
    PartInOrder(ranking, Min(PageOffset(input), |ranking|), Min(PageOffset(input) + input.pageSize, |ranking|));
  }

  lemma SomeRanking(snapshot: Snapshot, input: SearchInput, answers: seq<SearchPage>)
    returns (ranking: seq<Professional>)
    requires ValidInput(input.(page := 1)) && AllPages(snapshot, input, answers)
    ensures IsRanking(snapshot, input, ranking)
  {
    if |answers| == 0 {
      CeilingBounds(|Matching(snapshot, input)|, input.pageSize);
      ranking := [];
    } else {
      var first := input.(page := 1);
      assert IsAnswer(snapshot, first, answers[0]);
      MatchingIgnoresPage(snapshot, input, 1);
      ranking :| IsRanking(snapshot, first, ranking);
    }
  }

  /** Put together, the pages hold everyone who is found, exactly once, nearest first. */
  lemma PagesInOrder(snapshot: Snapshot, input: SearchInput, answers: seq<SearchPage>)
    requires DistinctIds(snapshot) && ValidInput(input.(page := 1)) && AllPages(snapshot, input, answers)
    ensures var all := Concat(seq(|answers|, k requires 0 <= k < |answers| => answers[k].items));
            && (forall p :: p in all <==> Found(snapshot, input, p))
            && (forall i, j :: 0 <= i < j < |all| ==> all[i] != all[j])
            && InOrder(all)
  {
    var ranking := SomeRanking(snapshot, input, answers);
    PagesMakeTheRanking(snapshot, input, answers, ranking);
    Listings.Elements(Matching(snapshot, input), ranking, Before);
    RankingInOrder(snapshot, input, ranking);
  }

  lemma Offsets(page: int, pages: int, size: nat)
    ensures page < pages ==> (page - 1) * size + size <= pages * size - size
    ensures page == pages ==> (page - 1) * size + size == pages * size
    ensures page > pages ==> (page - 1) * size >= pages * size
  {
    if page < pages {
      MulMono(page, pages - 1, size);
    } else if page > pages {
      MulMono(pages, page - 1, size);
    }
  }

  lemma PageTotals(total: nat, size: nat)
    requires size > 0
    ensures total <= TotalPages(total, size) * size < total + size
  {
    CeilingBounds(total, size);
    assert (TotalPages(total, size) - 1) * size == TotalPages(total, size) * size - size;
  }

  /** Every page but the last is full, the last holds the rest, and those after it nothing. */
  lemma PagesAreFull(snapshot: Snapshot, input: SearchInput, answer: SearchPage)
    requires DistinctIds(snapshot) && ValidInput(input) && IsAnswer(snapshot, input, answer)
    ensures answer.page == input.page && answer.pageSize == input.pageSize
    ensures answer.total == |Everyone(snapshot, input)|
    ensures answer.total <= answer.totalPages * input.pageSize < answer.total + input.pageSize
    ensures |answer.items| == if input.page < answer.totalPages then input.pageSize
                              else if input.page == answer.totalPages
                              then answer.total - (input.page - 1) * input.pageSize else 0
  {
    var ranking :| IsRanking(snapshot, input, ranking)
                   && answer.items == Slice(ranking, PageOffset(input), input.pageSize);
    Listings.Elements(Matching(snapshot, input), ranking, Before);
    assert Everyone(snapshot, input) == Matching(snapshot, input);
    OffsetNeverWraps(input);
    var size, pages := input.pageSize, answer.totalPages;
    var offset, end := (input.page - 1) * size, pages * size;
    PageTotals(|ranking|, size);
    Offsets(input.page, pages, size);
    SliceSize(ranking, offset, size, end);
  }

  lemma SliceSize(rows: seq<Professional>, offset: nat, size: nat, end: nat)
    requires |rows| <= end < |rows| + size
    ensures offset + size <= end - size ==> |Slice(rows, offset, size)| == size
    ensures offset + size == end ==> |Slice(rows, offset, size)| == |rows| - offset
    ensures offset >= end ==> |Slice(rows, offset, size)| == 0
  {
  }
}
