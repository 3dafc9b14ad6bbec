/**
 The counter in the shared cache that limits how often a caller may post.

 The code calls it a fixed window, but every accepted call writes the counter back with a fresh
 timeout, so what it bounds is a chain of accepted calls with gaps shorter than the window.
 */
module RateLimit {
  import opened Wrappers
  import Sets

  type Time = int

  /** A cached counter and the instant it disappears. */
  datatype Entry = Entry(count: nat, expiresAt: Time)

  function Live(entry: Option<Entry>, now: Time): nat {
    if entry.Some? && now < entry.value.expiresAt then entry.value.count else 0
  }

  /** How many calls at the end of `accepted` follow each other by less than `window`. */
  function Chain(accepted: seq<Time>, window: Time): (n: nat)
    ensures n <= |accepted|
    ensures |accepted| > 0 ==> n >= 1
  {
    if |accepted| <= 1 then
      |accepted|
    else if accepted[|accepted| - 1] - accepted[|accepted| - 2] < window then
      Chain(accepted[..|accepted| - 1], window) + 1
    else
      1
  }

  /** The accepted calls the counter still remembers at `now`. */
  function Remembered(accepted: seq<Time>, window: Time, now: Time): nat {
    if |accepted| > 0 && now - accepted[|accepted| - 1] < window then Chain(accepted, window) else 0
  }

  /** The same call as a step on one key, with the accepted calls so far beside the entry. */
  datatype Track = Track(entry: Option<Entry>, accepted: seq<Time>)

  function Call(t: Track, limit: int, window: Time, now: Time): Track {
    var count := Live(t.entry, now);
    if count >= limit then t else Track(Some(Entry(count + 1, now + window)), t.accepted + [now])
  }

  class RateLimiter {
    var cache: map<string, Entry>

    constructor ()
      ensures cache == map[]
    {
      cache := map[];
    }

    function Get(key: string): Option<Entry>
      reads this
    {
      if key in cache then Some(cache[key]) else None
    }

    method Enforce(key: string, limit: int, windowSeconds: Time, now: Time) returns (accepted: bool)
      modifies this
      ensures forall log ::
                Track(Get(key), if accepted then log + [now] else log)
                == Call(Track(old(Get(key)), log), limit, windowSeconds, now)
      ensures accepted <==> Live(old(Get(key)), now) < limit
      ensures forall other :: other != key ==> Get(other) == old(Get(other))
    {
      var count := Live(Get(key), now);
      if count >= limit {
        return false;
      }
      cache := cache[key := Entry(count + 1, now + windowSeconds)];
      return true;
    }
  }

  /** The track after calls at `times`, accepted and rejected. */
  function After(times: seq<Time>, limit: int, window: Time): Track {
    if |times| == 0 then Track(None, [])
    else Call(After(times[..|times| - 1], limit, window), limit, window, times[|times| - 1])
  }

  /** The entry is exactly the memory of the accepted calls. */
  predicate Remembers(t: Track, window: Time) {
    if |t.accepted| == 0 then t.entry.None?
    else t.entry == Some(Entry(Chain(t.accepted, window), t.accepted[|t.accepted| - 1] + window))
  }

  ghost predicate ChainsWithin(accepted: seq<Time>, limit: int, window: Time) {
    forall k :: 0 < k <= |accepted| ==> Chain(accepted[..k], window) <= limit
  }

  lemma CallKeepsMemory(t: Track, limit: int, window: Time, now: Time)
    requires Remembers(t, window) && ChainsWithin(t.accepted, limit, window)
    ensures Remembers(Call(t, limit, window, now), window)
    ensures ChainsWithin(Call(t, limit, window, now).accepted, limit, window)
  {
    var u := Call(t, limit, window, now);
    if Live(t.entry, now) < limit {
      assert u.accepted[..|t.accepted|] == t.accepted;
      assert Chain(u.accepted, window) == Live(t.entry, now) + 1;
      OneMoreChain(t.accepted, now, limit, window);
    }
  }

  lemma OneMoreChain(accepted: seq<Time>, now: Time, limit: int, window: Time)
    requires ChainsWithin(accepted, limit, window) && Chain(accepted + [now], window) <= limit
    ensures ChainsWithin(accepted + [now], limit, window)
  {
    var all, n := accepted + [now], |accepted|;
    forall k | 0 < k <= n + 1 ensures Chain(all[..k], window) <= limit {
      if k <= n { assert all[..k] == accepted[..k]; } else { assert all[..k] == all; }
    }
  }

  lemma {:induction false} CounterIsChain(times: seq<Time>, limit: int, window: Time)
    ensures Remembers(After(times, limit, window), window)
    ensures ChainsWithin(After(times, limit, window).accepted, limit, window)
  {
    if |times| > 0 {
      CounterIsChain(times[..|times| - 1], limit, window);
      CallKeepsMemory(After(times[..|times| - 1], limit, window), limit, window, times[|times| - 1]);
    }
  }

  /** A call is accepted exactly when the chain it would join is shorter than the limit. */
  lemma AcceptedIff(times: seq<Time>, limit: int, window: Time, now: Time)
    ensures var t := After(times, limit, window);
            |Call(t, limit, window, now).accepted| > |t.accepted| <==> Remembered(t.accepted, window, now) < limit
  {
    CounterIsChain(times, limit, window);
  }

  /** Calls `i` to `j` of the accepted ones follow each other by less than the window. */
  predicate Chained(accepted: seq<Time>, i: nat, j: nat, window: Time)
    requires j < |accepted|
  {
    forall k :: i < k <= j ==> accepted[k] - accepted[k - 1] < window
  }

  lemma {:induction false} ChainCovers(accepted: seq<Time>, i: nat, j: nat, window: Time)
    requires i <= j < |accepted| && Chained(accepted, i, j, window)
    ensures j - i + 1 <= Chain(accepted[..j + 1], window)
    decreases j
  {
    if i < j {
      ChainCovers(accepted, i, j - 1, window);
      assert accepted[..j + 1][..j] == accepted[..j];
      assert accepted[..j + 1][j] - accepted[..j + 1][j - 1] < window;
    }
  }

  /** No chain of accepted calls with gaps below the window is longer than the limit. */
  lemma ChainLimit(times: seq<Time>, limit: int, window: Time, i: nat, j: nat)
    requires i <= j < |After(times, limit, window).accepted|
    requires Chained(After(times, limit, window).accepted, i, j, window)
    ensures j - i + 1 <= limit
  {
    var accepted := After(times, limit, window).accepted;
    CounterIsChain(times, limit, window);
    ChainCovers(accepted, i, j, window);
    assert Chain(accepted[..j + 1], window) <= limit;
  }

  /** With a clock that does not run backwards, no half-open interval of one window holds more than
      `limit` accepted calls: `i` is the first accepted call in it and `j` the last. */
  lemma WindowLimit(times: seq<Time>, limit: int, window: Time, from: Time, i: nat, j: nat)
    requires Ordered(times)
    requires i <= j < |After(times, limit, window).accepted|
    requires from <= After(times, limit, window).accepted[i]
    requires After(times, limit, window).accepted[j] < from + window
    ensures j - i + 1 <= limit
  {
    var accepted := After(times, limit, window).accepted;
    AcceptedInOrder(times, limit, window);
    forall k | i < k <= j ensures accepted[k] - accepted[k - 1] < window {
      assert accepted[i] <= accepted[k - 1] && accepted[k] <= accepted[j];
    }
    ChainLimit(times, limit, window, i, j);
  }

  ghost predicate Ordered(times: seq<Time>) {
    forall k, m :: 0 <= k <= m < |times| ==> times[k] <= times[m]
  }

  lemma {:induction false} AcceptedInOrder(times: seq<Time>, limit: int, window: Time)
    requires Ordered(times)
    ensures var accepted := After(times, limit, window).accepted;
            && Ordered(accepted)
            && (|accepted| > 0 ==> |times| > 0 && accepted[|accepted| - 1] <= times[|times| - 1])
  {
    if |times| > 0 {
      var n := |times|;
      AcceptedInOrder(times[..n - 1], limit, window);
      assert n > 1 ==> times[n - 2] <= times[n - 1];
    }
  }

  /** Rejected calls leave no trace, and one window after the last accepted call the caller is free. */
  lemma Recovery(times: seq<Time>, limit: int, window: Time, now: Time)
    requires limit > 0
    requires var accepted := After(times, limit, window).accepted;
             |accepted| > 0 ==> now >= accepted[|accepted| - 1] + window
    ensures var t := After(times, limit, window);
            Call(t, limit, window, now).accepted == t.accepted + [now]
  {
    CounterIsChain(times, limit, window);
  }

  // ----- why it is no fixed window -----

  /** `n` calls, one every `gap`. */
  function Steady(n: nat, gap: Time): seq<Time> {
    seq(n, k => k * gap)
  }

  /** The accepted calls later than `from`. */
  function AcceptedSince(accepted: seq<Time>, from: Time): set<nat> {
    set k: nat | k < |accepted| && accepted[k] > from
  }

  lemma {:induction false} SteadyAccepted(n: nat, limit: nat, gap: Time, window: Time)
    requires n <= limit && 0 < gap < window
    ensures var t := After(Steady(n, gap), limit, window);
            t.accepted == Steady(n, gap) && (n > 0 ==> t.entry == Some(Entry(n, (n - 1) * gap + window)))
            && (n == 0 ==> t.entry == None)
  {
    if n > 0 {
      SteadyAccepted(n - 1, limit, gap, window);
      assert Steady(n, gap)[..n - 1] == Steady(n - 1, gap);
      assert Steady(n, gap) == Steady(n - 1, gap) + [(n - 1) * gap];
      assert n > 1 ==> (n - 1) * gap == (n - 2) * gap + gap;
    }
  }

  /** A caller that never makes more than `limit` calls a window is refused all the same: every call
      comes within a window of the one before. Fewer than `limit` calls were accepted in the window that
      ends at the refusal. */
  lemma NotAFixedWindow(limit: nat, gap: Time, window: Time)
    requires limit > 0 && 0 < gap < window <= limit * gap
    ensures var t, now := After(Steady(limit, gap), limit, window), limit * gap;
            && t.accepted == Steady(limit, gap)
            && Call(t, limit, window, now).accepted == t.accepted
            && |AcceptedSince(t.accepted, now - window)| < limit
  {
    var t, now := After(Steady(limit, gap), limit, window), limit * gap;
    SteadyAccepted(limit, limit, gap, window);
    assert now == (limit - 1) * gap + gap;
    assert t.accepted[0] == 0;
    Sets.SubsetSize(AcceptedSince(t.accepted, now - window), Sets.Below(limit) - {0});
  }
}
