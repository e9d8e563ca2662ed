/**
 The fixed-window limiter (CheckRateLimit in internal/store/redis.go): INCR, EXPIRE on the first hit, compare.

 Time is counted in nanoseconds, the unit of time.Duration; requests on one key arrive at nondecreasing times.
 */
module RateLimit {
  import opened Common

  const SECOND := 1_000_000_000

  /** A live Redis counter; it is gone from expiresAt on. */
  datatype Counter = Counter(count: int, expiresAt: int)

  /** int(window.Seconds()): EXPIRE takes whole seconds, a fraction is cut off. */
  function Expiry(window: int): int {
    if window <= 0 then 0 else window / SECOND * SECOND
  }

  /** The script on one key: the counter left behind and whether the request is admitted. */
  function Check(stored: Option<Counter>, limit: int, window: int, now: int): (Option<Counter>, bool) {
    var live := stored.Some? && now < stored.value.expiresAt;
    var count := if live then stored.value.count + 1 else 1;
    var left :=
      if count > 1 then Some(Counter(count, stored.value.expiresAt))
      else if Expiry(window) == 0 then None // EXPIRE with no seconds deletes the key
      else Some(Counter(1, now + Expiry(window)));
    (left, !(count > limit))
  }

  class RedisStore {
    var counters: map<string, Counter>

    function Stored(key: string): Option<Counter>
      reads this
    {
      if key in counters then Some(counters[key]) else None
    }

    method CheckRateLimit(key: string, limit: int, window: int, now: int) returns (allowed: bool)
      requires key in counters ==> counters[key].count >= 1
      modifies this
      ensures (Stored(key), allowed) == Check(old(Stored(key)), limit, window, now)
      ensures forall other :: other != key ==> Stored(other) == old(Stored(other))
      ensures key in counters ==> counters[key].count >= 1
    {
      if key in counters && now >= counters[key].expiresAt {
        counters := counters - {key};
      }
      var count := if key in counters then counters[key].count + 1 else 1;
      if count == 1 {
        if Expiry(window) == 0 {
          counters := counters - {key};
        } else {
          counters := counters[key := Counter(1, now + Expiry(window))];
        }
      } else {
        counters := counters[key := Counter(count, counters[key].expiresAt)];
      }
      return count <= limit;
    }
  }

  // ---------------------------------------------------------------------------------------------------------------
  // Timelines
  // ---------------------------------------------------------------------------------------------------------------

  ghost predicate Timeline(times: seq<int>) {
    forall i, j :: 0 <= i <= j < |times| ==> times[i] <= times[j]
  }

  /** The counter after the first n requests. */
  function CounterAfter(limit: int, window: int, times: seq<int>, n: nat): Option<Counter>
    requires n <= |times|
  {
    if n == 0 then None else Check(CounterAfter(limit, window, times, n - 1), limit, window, times[n - 1]).0
  }

  predicate Admits(limit: int, window: int, times: seq<int>, i: nat)
    requires i < |times|
  {
    Check(CounterAfter(limit, window, times, i), limit, window, times[i]).1
  }

  /** The number of requests from position a up to b that are admitted. */
  function Admitted(limit: int, window: int, times: seq<int>, a: nat, b: nat): nat
    requires a <= b <= |times|
  {
    if a == b then 0
    else Admitted(limit, window, times, a, b - 1) + if Admits(limit, window, times, b - 1) then 1 else 0
  }

  /** The position of the request that opened the counter window of request i. */
  function Opening(window: int, times: seq<int>, i: nat): (k: nat)
    requires i < |times|
    ensures k <= i
  {
    if i == 0 then 0
    else
      var k := Opening(window, times, i - 1);
      if times[i] < times[k] + Expiry(window) then k else i
  }

  /** The counter counts the requests since the opening of its window, and the first `limit` of them are admitted. */
  lemma {:induction false} CounterCounts(limit: int, window: int, times: seq<int>, i: nat)
    requires Timeline(times) && i < |times| && window >= SECOND
    ensures var k := Opening(window, times, i);
            && CounterAfter(limit, window, times, i + 1) == Some(Counter(i - k + 1, times[k] + Expiry(window)))
            && times[k] <= times[i] < times[k] + Expiry(window)
            && (Admits(limit, window, times, i) <==> i - k < limit)
  {
    if i == 0 {
      assert CounterAfter(limit, window, times, 0) == None;
    } else {
      CounterCounts(limit, window, times, i - 1);
    }
  }

  /** Of the requests of one counter window exactly those among its first `limit` are admitted. */
  lemma {:induction false} AdmittedInOneWindow(limit: nat, window: int, times: seq<int>, a: nat, b: nat, k: nat)
    requires Timeline(times) && a < b <= |times| && window >= SECOND
    requires forall i :: a <= i < b ==> Opening(window, times, i) == k
    ensures k <= a
    ensures Admitted(limit, window, times, a, b) == if b - k <= limit then b - a else Max(0, limit - (a - k))
  {
    CounterCounts(limit, window, times, b - 1);
    assert Opening(window, times, a) == k;
    if a + 1 < b {
      AdmittedInOneWindow(limit, window, times, a, b - 1, k);
    } else {
      assert Admitted(limit, window, times, a, a) == 0;
    }
  }

  /** Requests of one counter window: at most `limit` of them are admitted. */
  lemma WindowAdmitsLimit(limit: nat, window: int, times: seq<int>, a: nat, b: nat, k: nat)
    requires Timeline(times) && a <= b <= |times| && window >= SECOND
    requires forall i :: a <= i < b ==> Opening(window, times, i) == k
    ensures Admitted(limit, window, times, a, b) <= limit
    ensures a < b ==> Admitted(limit, window, times, a, b) <= Max(0, limit - (a - k))
  {
    if a < b {
      AdmittedInOneWindow(limit, window, times, a, b, k);
    }
  }

  lemma {:induction false} AdmittedSplits(limit: int, window: int, times: seq<int>, a: nat, c: nat, b: nat)
    requires a <= c <= b <= |times|
    ensures Admitted(limit, window, times, a, b)
            == Admitted(limit, window, times, a, c) + Admitted(limit, window, times, c, b)
  {
    if c < b {
      AdmittedSplits(limit, window, times, a, c, b - 1);
    }
  }

  /** The end of the counter window that request a belongs to, within a stretch of requests. */
  lemma {:induction false} WindowEnd(window: int, times: seq<int>, a: nat, b: nat) returns (c: nat)
    requires Timeline(times) && a < b <= |times| && window >= SECOND
    ensures a < c <= b
    ensures forall i :: a <= i < c ==> Opening(window, times, i) == Opening(window, times, a)
    ensures c < b ==> Opening(window, times, c) == c && times[c] >= times[Opening(window, times, a)] + Expiry(window)
  {
    if a + 1 == b {
      c := b;
    } else {
      c := WindowEnd(window, times, a, b - 1);
      if c == b - 1 && Opening(window, times, b - 1) == Opening(window, times, a) {
        c := b;
      }
    }
  }

  /** All of a stretch whose first request opened a window lies in that window if it ends in time. */
  lemma {:induction false} AllInOneWindow(window: int, times: seq<int>, c: nat, b: nat)
    requires Timeline(times) && c < b <= |times| && window >= SECOND
    requires Opening(window, times, c) == c && times[b - 1] < times[c] + Expiry(window)
    ensures forall i :: c <= i < b ==> Opening(window, times, i) == c
  {
    if c + 1 < b {
      AllInOneWindow(window, times, c, b - 1);
    }
  }

  /** The stretch from a to b fits an interval of this length, ends excluded. */
  predicate FitsInterval(times: seq<int>, a: nat, b: nat, length: int)
    requires a <= b <= |times|
  {
    a < b ==> times[b - 1] - times[a] < length
  }

  /** An interval no longer than the time a counter really lives, plus one tick, admits at most twice the limit. */
  lemma IntervalAdmitsTwice(limit: nat, window: int, times: seq<int>, a: nat, b: nat)
    requires Timeline(times) && window >= SECOND && a <= b <= |times|
    requires FitsInterval(times, a, b, Expiry(window) + 1)
    ensures Admitted(limit, window, times, a, b) <= 2 * limit
  {
    if a < b {
      var c := WindowEnd(window, times, a, b);
      WindowAdmitsLimit(limit, window, times, a, c, Opening(window, times, a));
      if c < b {
        CounterCounts(limit, window, times, a);
        AllInOneWindow(window, times, c, b);
        WindowAdmitsLimit(limit, window, times, c, b, c);
      }
      AdmittedSplits(limit, window, times, a, c, b);
    }
  }

  /** With a limit of one only openings are admitted, and a third one is two whole counter lives after the first. */
  lemma TwoFromOpening(limit: nat, window: int, times: seq<int>, c: nat, b: nat)
    requires limit <= 1 && Timeline(times) && window >= SECOND && c < b <= |times|
    requires Opening(window, times, c) == c && FitsInterval(times, c, b, 2 * Expiry(window))
    ensures Admitted(limit, window, times, c, b) <= 2 * limit
  {
    var d := WindowEnd(window, times, c, b);
    AdmittedSplits(limit, window, times, c, d, b);
    WindowAdmitsLimit(limit, window, times, c, d, c);
    if d < b {
      AllInOneWindow(window, times, d, b);
      WindowAdmitsLimit(limit, window, times, d, b, d);
    }
  }

  lemma IntervalAdmitsTwiceOne(limit: nat, window: int, times: seq<int>, a: nat, b: nat)
    requires limit <= 1 && Timeline(times) && window >= SECOND && a <= b <= |times|
    requires FitsInterval(times, a, b, window)
    ensures Admitted(limit, window, times, a, b) <= 2 * limit
  {
    assert window < 2 * Expiry(window);
    if a < b {
      if Opening(window, times, a) == a {
        TwoFromOpening(limit, window, times, a, b);
      } else {
        var c := WindowEnd(window, times, a, b);
        AdmittedSplits(limit, window, times, a, c, b);
        WindowAdmitsLimit(limit, window, times, a, c, Opening(window, times, a));
        if c < b {
          TwoFromOpening(limit, window, times, c, b);
        }
      }
    }
  }

  /** Every interval as long as the configured window admits at most twice the limit. */
  ghost predicate TwiceLimitHolds(limit: nat, window: int) {
    forall times: seq<int>, a: nat, b: nat ::
      Timeline(times) && a <= b <= |times| && FitsInterval(times, a, b, window)
      ==> Admitted(limit, window, times, a, b) <= 2 * limit
  }

  /** The worst case: one early request, then three bursts around two expiries. */
  function Bursts(limit: nat, window: int): seq<int> {
    seq(3 * limit, i =>
      if i == 0 then 0
      else if i < limit then Expiry(window) - 1
      else if i < 2 * limit then Expiry(window)
      else 2 * Expiry(window))
  }

  lemma {:induction false} BurstOpenings(limit: nat, window: int, i: nat)
    requires limit >= 2 && window >= SECOND && i < 3 * limit
    ensures Opening(window, Bursts(limit, window), i)
            == if i < limit then 0 else if i < 2 * limit then limit else 2 * limit
  {
    if i > 0 {
      BurstOpenings(limit, window, i - 1);
    }
  }

  lemma BurstsAreATimeline(limit: nat, window: int)
    requires window >= SECOND
    ensures Timeline(Bursts(limit, window))
  {
    assert SECOND <= Expiry(window);
  }

  lemma {:induction false} BurstsAreAdmitted(limit: nat, window: int, b: nat)
    requires limit >= 2 && window >= SECOND && 1 <= b <= 3 * limit
    ensures Admitted(limit, window, Bursts(limit, window), 1, b) == b - 1
  {
    if b > 1 {
      BurstsAreATimeline(limit, window);
      BurstsAreAdmitted(limit, window, b - 1);
      BurstOpenings(limit, window, b - 1);
      CounterCounts(limit, window, Bursts(limit, window), b - 1);
    }
  }

  /**
   For windows of at least a second the two-limits bound holds if and only if the limit is at most one or the window is
   a whole number of seconds, give or take one nanosecond: the fraction that EXPIRE cuts off lets a third burst in.
   */
  lemma TwiceLimitIff(limit: nat, window: int)
    requires window >= SECOND
    ensures TwiceLimitHolds(limit, window) <==> limit <= 1 || window - Expiry(window) <= 1
  {
    if limit <= 1 || window - Expiry(window) <= 1 {
      forall times: seq<int>, a: nat, b: nat |
        Timeline(times) && a <= b <= |times| && FitsInterval(times, a, b, window)
        ensures Admitted(limit, window, times, a, b) <= 2 * limit
      {
        if limit <= 1 {
          IntervalAdmitsTwiceOne(limit, window, times, a, b);
        } else {
          IntervalAdmitsTwice(limit, window, times, a, b);
        }
      }
    } else {
      BurstsAreATimeline(limit, window);
      BurstsAreAdmitted(limit, window, 3 * limit);
      var times := Bursts(limit, window);
      assert times[3 * limit - 1] - times[1] == Expiry(window) + 1;
      assert FitsInterval(times, 1, 3 * limit, window);
      assert !TwiceLimitHolds(limit, window);
    }
  }

  /** A window below one second limits nothing: every request finds the key deleted. */
  lemma {:induction false} SubSecondAdmitsAll(limit: nat, window: int, times: seq<int>, n: nat)
    requires limit >= 1 && window < SECOND && n <= |times|
    ensures CounterAfter(limit, window, times, n) == None
    ensures Admitted(limit, window, times, 0, n) == n
  {
    if n > 0 {
      SubSecondAdmitsAll(limit, window, times, n - 1);
    }
  }
}
