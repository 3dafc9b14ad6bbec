/**
 The argument behind both record-counting quotas: a record is admitted when fewer than `limit`
 earlier records of the same owner lie in the window that ends at it. Then no window of that width,
 wherever it lies, holds more than `limit`. The clock may even run backwards.
 */
module SlidingWindow {
  import Sets

  /** The owner's records before `k` that are still in the window when `k` is stamped. */
  function Earlier(times: seq<int>, mine: set<nat>, k: nat, width: int): set<nat>
    requires k < |times| && forall j :: j in mine ==> j < |times|
  {
    set j | j in mine && j < k && times[j] >= times[k] - width
  }

  function Inside(times: seq<int>, mine: set<nat>, from: int, to: int): set<nat>
    requires forall j :: j in mine ==> j < |times|
  {
    set j | j in mine && from <= times[j] <= to
  }

  lemma UpToGreatest(times: seq<int>, mine: set<nat>, width: int, from: int, k: nat)
    requires forall j :: j in mine ==> j < |times|
    requires k in Inside(times, mine, from, from + width)
    requires forall j :: j in mine && from <= times[j] <= from + width ==> j <= k
    ensures Inside(times, mine, from, from + width) <= Earlier(times, mine, k, width) + {k}
  {
  }

  lemma AdmittedBound(times: seq<int>, mine: set<nat>, width: int, limit: nat, from: int)
    requires forall j :: j in mine ==> j < |times|
    requires forall k :: k in mine ==> |Earlier(times, mine, k, width)| < limit
    ensures |Inside(times, mine, from, from + width)| <= limit
  {
    var inside := Inside(times, mine, from, from + width);
    if inside != {} {
      var k := Sets.Greatest(inside);
      forall j | j in mine && from <= times[j] <= from + width ensures j <= k {
        assert j in inside;
      }
      UpToGreatest(times, mine, width, from, k);
      Sets.SubsetSize(inside, Earlier(times, mine, k, width) + {k});
    }
  }
}
