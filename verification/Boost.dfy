/** The search page that puts boosted professionals first. */
module Boosts {
  import Listings

  datatype Professional = Professional(id: int, hasLocation: bool, category: string, distance: int, createdAt: int)

  datatype Boost = Boost(professional: int, startsAt: int, endsAt: int)

  /** `near` says whether the request gave a point to measure distances from. */
  datatype Query = Query(category: string, near: bool, boostEnabled: bool, now: int)

  predicate Compatible(p: Professional, q: Query) {
    p.hasLocation && (q.category == "" || p.category == q.category)
  }

  function Results(profiles: set<Professional>, q: Query): set<Professional> {
    set p | p in profiles && Compatible(p, q)
  }

  predicate IsBoosted(boosts: set<Boost>, q: Query, p: Professional) {
    q.boostEnabled && exists b :: b in boosts && b.professional == p.id && b.startsAt <= q.now && b.endsAt >= q.now
  }

  function Key(q: Query, p: Professional): int {
    if q.near then p.distance else -p.createdAt
  }

  function PlainOrder(q: Query): (Professional, Professional) -> bool {
    (a: Professional, b: Professional) => Key(q, a) < Key(q, b)
  }

  function BoostedOrder(boosts: set<Boost>, q: Query): (Professional, Professional) -> bool {
    (a: Professional, b: Professional) =>
      (IsBoosted(boosts, q, a) && !IsBoosted(boosts, q, b))
      || (IsBoosted(boosts, q, a) == IsBoosted(boosts, q, b) && Key(q, a) < Key(q, b))
  }

  /** The members of `xs` that are boosted, or those that are not, in their order in `xs`. */
  function Keep(boosts: set<Boost>, q: Query, xs: seq<Professional>, boosted: bool): seq<Professional> {
    if |xs| == 0 then []
    else
      var front := Keep(boosts, q, xs[..|xs| - 1], boosted);
      if IsBoosted(boosts, q, xs[|xs| - 1]) == boosted then front + [xs[|xs| - 1]] else front
  }

  ghost predicate DistinctKeys(rows: set<Professional>, q: Query) {
    forall a, b :: a in rows && b in rows && a != b ==> Key(q, a) != Key(q, b)
  }

  lemma {:induction false} KeepElements(boosts: set<Boost>, q: Query, xs: seq<Professional>, boosted: bool)
    ensures forall p :: p in Keep(boosts, q, xs, boosted) <==> p in xs && IsBoosted(boosts, q, p) == boosted
  {
    if |xs| > 0 {
      KeepElements(boosts, q, xs[..|xs| - 1], boosted);
      assert xs == xs[..|xs| - 1] + [xs[|xs| - 1]];
    }
  }

  lemma {:induction false} KeepStaysOrdered(boosts: set<Boost>, q: Query, xs: seq<Professional>, boosted: bool)
    requires Listings.Strict(xs, PlainOrder(q))
    ensures Listings.Strict(Keep(boosts, q, xs, boosted), PlainOrder(q))
  {
    if |xs| > 0 {
      var front, last := xs[..|xs| - 1], xs[|xs| - 1];
      KeepStaysOrdered(boosts, q, front, boosted);
      KeepElements(boosts, q, front, boosted);
      var kept := Keep(boosts, q, front, boosted);
      forall i | 0 <= i < |kept|
        ensures PlainOrder(q)(kept[i], last) && !PlainOrder(q)(last, kept[i]) && kept[i] != last
      {
        assert kept[i] in front;
        var k :| 0 <= k < |front| && front[k] == kept[i];
        assert PlainOrder(q)(xs[k], xs[|xs| - 1]);
      }
    }
  }

  /** The boosted ranking is the plain ranking with the boosted professionals moved to the front; within
      each group the order is that of the plain ranking. */
  lemma BoostIsStablePartition(profiles: set<Professional>, boosts: set<Boost>, q: Query,
                               plain: seq<Professional>, ranked: seq<Professional>)
    requires DistinctKeys(Results(profiles, q), q)
    requires Listings.IsListing(Results(profiles, q), plain, PlainOrder(q))
    requires Listings.IsListing(Results(profiles, q), ranked, BoostedOrder(boosts, q))
    ensures ranked == Keep(boosts, q, plain, true) + Keep(boosts, q, plain, false)
  {
    var rows := Results(profiles, q);
    var first, second := Keep(boosts, q, plain, true), Keep(boosts, q, plain, false);
    var order := BoostedOrder(boosts, q);
    Listings.Elements(rows, plain, PlainOrder(q));
    Listings.Elements(rows, ranked, order);
    Listings.ListingIsStrict(rows, plain, PlainOrder(q));
    Listings.ListingIsStrict(rows, ranked, order);
    KeepElements(boosts, q, plain, true);
    KeepElements(boosts, q, plain, false);
    KeepStaysOrdered(boosts, q, plain, true);
    KeepStaysOrdered(boosts, q, plain, false);
    PartitionIsOrdered(boosts, q, first, second);
    Listings.StrictIsUnique(ranked, first + second, order);
  }

  lemma PartitionIsOrdered(boosts: set<Boost>, q: Query, first: seq<Professional>, second: seq<Professional>)
    requires Listings.Strict(first, PlainOrder(q)) && Listings.Strict(second, PlainOrder(q))
    requires forall p :: p in first ==> IsBoosted(boosts, q, p)
    requires forall p :: p in second ==> !IsBoosted(boosts, q, p)
    ensures Listings.Strict(first + second, BoostedOrder(boosts, q))
  {
    var all, order := first + second, BoostedOrder(boosts, q);
    forall i, j | 0 <= i < j < |all|
      ensures order(all[i], all[j]) && !order(all[j], all[i]) && all[i] != all[j]
    {
      if j < |first| {
        assert PlainOrder(q)(first[i], first[j]) && first[i] in first && first[j] in first;
      } else if i >= |first| {
        assert PlainOrder(q)(second[i - |first|], second[j - |first|]);
        assert second[i - |first|] in second && second[j - |first|] in second;
      } else {
        assert first[i] in first && second[j - |first|] in second;
      }
    }
  }

  /** Even with ties: the same professionals, all compatible, no boosted one behind one that is not,
      and inside a group nobody behind someone farther away. */
  lemma BoostOnlyReorders(profiles: set<Professional>, boosts: set<Boost>, q: Query, ranked: seq<Professional>,
                          i: nat, j: nat)
    requires Listings.IsListing(Results(profiles, q), ranked, BoostedOrder(boosts, q))
    requires i < j < |ranked|
    ensures forall p :: p in ranked <==> p in profiles && Compatible(p, q)
    ensures IsBoosted(boosts, q, ranked[j]) ==> IsBoosted(boosts, q, ranked[i])
    ensures IsBoosted(boosts, q, ranked[j]) == IsBoosted(boosts, q, ranked[i]) ==>
              Key(q, ranked[i]) <= Key(q, ranked[j])
  {
    Listings.Elements(Results(profiles, q), ranked, BoostedOrder(boosts, q));
    assert !BoostedOrder(boosts, q)(ranked[j], ranked[i]);
  }

  /** Switching the experiment off gives the plain ranking. */
  lemma FlagOffIsPlain(profiles: set<Professional>, boosts: set<Boost>, q: Query, ranked: seq<Professional>)
    requires !q.boostEnabled
    requires Listings.IsListing(Results(profiles, q), ranked, BoostedOrder(boosts, q))
    ensures Listings.IsListing(Results(profiles, q), ranked, PlainOrder(q))
  {
    forall a, b ensures PlainOrder(q)(a, b) == BoostedOrder(boosts, q)(a, b) {
      assert !IsBoosted(boosts, q, a) && !IsBoosted(boosts, q, b);
    }
  }

  // ----- the ranking told on the columns -----

  /** A boost of the professional that has begun and not ended. */
  ghost predicate BoostedNow(boosts: set<Boost>, p: Professional, now: int) {
    exists b :: b in boosts && b.professional == p.id && b.startsAt <= now <= b.endsAt
  }

  /** Whatever the flag, the page lists exactly the professionals with a location that are of the category,
      if one is asked for, each once. */
  lemma RankedMembers(profiles: set<Professional>, boosts: set<Boost>, q: Query, ranked: seq<Professional>)
    requires Listings.IsListing(Results(profiles, q), ranked, BoostedOrder(boosts, q))
    ensures forall p :: p in ranked <==>
              p in profiles && p.hasLocation && (q.category != "" ==> p.category == q.category)
    ensures forall i, j :: 0 <= i < j < |ranked| ==> ranked[i] != ranked[j]
  {
    Listings.Elements(Results(profiles, q), ranked, BoostedOrder(boosts, q));
  }

  /** With the flag on, nobody whose boost is active comes behind somebody without one. Inside each group,
      and altogether with the flag off, nobody comes behind somebody farther away, or, when the request gives
      no point, behind somebody who joined earlier. */
  lemma RankedInOrder(profiles: set<Professional>, boosts: set<Boost>, q: Query, ranked: seq<Professional>,
                      i: nat, j: nat)
    requires Listings.IsListing(Results(profiles, q), ranked, BoostedOrder(boosts, q))
    requires i < j < |ranked|
    ensures var a, b := ranked[i], ranked[j];
            && (q.boostEnabled && BoostedNow(boosts, b, q.now) ==> BoostedNow(boosts, a, q.now))
            && (!q.boostEnabled || (BoostedNow(boosts, a, q.now) <==> BoostedNow(boosts, b, q.now)) ==>
                  if q.near then a.distance <= b.distance else a.createdAt >= b.createdAt)
  {
    var a, b := ranked[i], ranked[j];
    assert !BoostedOrder(boosts, q)(b, a);
    ActiveBoost(boosts, q, a);
    ActiveBoost(boosts, q, b);
  }

  lemma ActiveBoost(boosts: set<Boost>, q: Query, p: Professional)
    ensures IsBoosted(boosts, q, p) <==> q.boostEnabled && BoostedNow(boosts, p, q.now)
  {
    if q.boostEnabled && BoostedNow(boosts, p, q.now) {
      var b :| b in boosts && b.professional == p.id && b.startsAt <= q.now <= b.endsAt;
      assert b in boosts && b.professional == p.id && b.startsAt <= q.now && b.endsAt >= q.now;
    }
    if IsBoosted(boosts, q, p) {
      var b :| b in boosts && b.professional == p.id && b.startsAt <= q.now && b.endsAt >= q.now;
      assert b.startsAt <= q.now <= b.endsAt;
    }
  }
}
