/** `RateDetector`: per-second event buckets over a sliding window, and the
    spike rule "at least three buckets, and the latest exceeds `threshold`
    times the mean of the others". Times are integer nanoseconds since the
    zero time; ratios are exact reals. */
module Rate {

  /** One second in nanoseconds. */
  const Second: int := 1_000_000_000

  /** `Time.Truncate(time.Second)`: round down to a whole second. */
  function Truncate(t: int): (r: int)
    ensures r <= t < r + Second && r % Second == 0
  {
    t - t % Second
  }

  /** Sum of the counts. */
  function Sum(xs: seq<int>): int
    decreases |xs|
  {
    if xs == [] then 0 else Sum(xs[..|xs| - 1]) + xs[|xs| - 1]
  }

  /** How many leading timestamps are strictly before `cutoff`. */
  function StaleCount(ts: seq<int>, cutoff: int): (k: nat)
    ensures k <= |ts|
    ensures forall i :: 0 <= i < k ==> ts[i] < cutoff
    ensures k < |ts| ==> ts[k] >= cutoff
    decreases |ts|
  {
    if ts == [] || ts[0] >= cutoff then 0 else 1 + StaleCount(ts[1..], cutoff)
  }

  /** The bucket update for an event in second `sec`: bump the last bucket if
      it is that second's, else open a new bucket with count 1. */
  function Bump(buckets: seq<int>, ts: seq<int>, sec: int): (r: (seq<int>, seq<int>))
    requires |buckets| == |ts|
    ensures |r.0| == |r.1| >= 1 && r.1[|r.1| - 1] == sec
    ensures |ts| > 0 && ts[|ts| - 1] == sec ==>
      r.1 == ts && r.0 == buckets[..|buckets| - 1] + [buckets[|buckets| - 1] + 1]
    ensures !(|ts| > 0 && ts[|ts| - 1] == sec) ==> r == (buckets + [1], ts + [sec])
  {
    if |ts| > 0 && ts[|ts| - 1] == sec then (buckets[|buckets| - 1 := buckets[|buckets| - 1] + 1], ts)
    else (buckets + [1], ts + [sec])
  }

  /** `isSpiking` on exact reals. */
  function Spiking(buckets: seq<int>, threshold: real): bool
  {
    if |buckets| < 3 then false
    else
      var avg := Sum(buckets[..|buckets| - 1]) as real / (|buckets| - 1) as real;
      if avg == 0.0 then false
      else buckets[|buckets| - 1] as real > avg * threshold
  }

  /** `Duration.Seconds`, exactly. */
  function Seconds(window: int): real
  {
    window as real / Second as real
  }

  /** `CurrentRate` on the pruned buckets: events per second of window. */
  function RateOf(buckets: seq<int>, window: int): real
  {
    if |buckets| == 0 then 0.0
    else if Seconds(window) == 0.0 then 0.0
    else Sum(buckets) as real / Seconds(window)
  }

  /** Buckets in a well-formed history: one per second with at least one
      event, seconds strictly increasing and whole. */
  predicate Ordered(buckets: seq<int>, ts: seq<int>)
  {
    && |buckets| == |ts|
    && (forall i :: 0 <= i < |buckets| ==> buckets[i] >= 1)
    && (forall i :: 0 <= i < |ts| ==> ts[i] % Second == 0)
    && (forall i, j :: 0 <= i < j < |ts| ==> ts[i] < ts[j])
  }

  class RateDetector {
    const window: int
    const threshold: real
    var buckets: seq<int>
    var timestamps: seq<int>

    ghost predicate Valid()
      reads this
    {
      |buckets| == |timestamps|
    }

    /** `NewRateDetector`: a window under a second means ten seconds, a
        threshold that is not positive means 3. */
    constructor (window: int, threshold: real)
      ensures this.window == (if window < Second then 10 * Second else window)
      ensures this.threshold == (if threshold <= 0.0 then 3.0 else threshold)
      ensures this.window >= Second && this.threshold > 0.0
      ensures buckets == [] && timestamps == [] && Valid()
    {
      this.window := if window < Second then 10 * Second else window;
      this.threshold := if threshold <= 0.0 then 3.0 else threshold;
      buckets := [];
      timestamps := [];
    }

    /** `prune`: drop the leading buckets whose second is before
        `now - window`; the rest keep their order. */
    method Prune(now: int)
      requires Valid()
      modifies this
      ensures Valid()
      ensures var k := StaleCount(old(timestamps), now - window);
        buckets == old(buckets)[k..] && timestamps == old(timestamps)[k..]
    {
      var cutoff := now - window;
      var i := 0;
      while i < |timestamps| && timestamps[i] < cutoff
        invariant 0 <= i <= |timestamps|
        invariant forall j :: 0 <= j < i ==> timestamps[j] < cutoff
      {
        i := i + 1;
      }
      StaleCountIs(timestamps, cutoff, i);
      if i > 0 {
        buckets := buckets[i..];
        timestamps := timestamps[i..];
      }
    }

    /** `Record`: prune, count the event in its second's bucket, then report
        whether the buckets now show a spike. */
    method Record(now: int) returns (spike: bool)
      requires Valid()
      modifies this
      ensures Valid()
      ensures var k := StaleCount(old(timestamps), now - window);
        (buckets, timestamps) == Bump(old(buckets)[k..], old(timestamps)[k..], Truncate(now))
      ensures spike == Spiking(buckets, threshold)
    {
      Prune(now);
      var truncated := now - now % Second;
      if |timestamps| > 0 && timestamps[|timestamps| - 1] == truncated {
        buckets := buckets[|buckets| - 1 := buckets[|buckets| - 1] + 1];
      } else {
        buckets := buckets + [1];
        timestamps := timestamps + [truncated];
      }
      spike := IsSpiking();
    }

    /** `isSpiking`, summing all buckets but the last in a loop. */
    method IsSpiking() returns (r: bool)
      ensures r == Spiking(buckets, threshold)
    {
      if |buckets| < 3 {
        return false;
      }
      var sum := 0;
      var i := 0;
      while i < |buckets| - 1
        invariant 0 <= i <= |buckets| - 1
        invariant sum == Sum(buckets[..i])
      {
        assert buckets[..i + 1][..i] == buckets[..i];
        sum := sum + buckets[i];
        i := i + 1;
      }
      var avg := sum as real / (|buckets| - 1) as real;
      if avg == 0.0 {
        return false;
      }
      var latest := buckets[|buckets| - 1] as real;
      return latest > avg * threshold;
    }

    /** `CurrentRate`: prune, then events per second over the window. */
    method CurrentRate(now: int) returns (rate: real)
      requires Valid()
      modifies this
      ensures Valid()
      ensures var k := StaleCount(old(timestamps), now - window);
        buckets == old(buckets)[k..] && timestamps == old(timestamps)[k..]
      ensures rate == RateOf(buckets, window)
    {
      Prune(now);
      if |buckets| == 0 {
        return 0.0;
      }
      var total := 0;
      var i := 0;
      while i < |buckets|
        invariant 0 <= i <= |buckets|
        invariant total == Sum(buckets[..i])
      {
        assert buckets[..i + 1][..i] == buckets[..i];
        total := total + buckets[i];
        i := i + 1;
      }
      assert buckets[..i] == buckets;
      var seconds := window as real / Second as real;
      if seconds == 0.0 {
        return 0.0;
      }
      return total as real / seconds;
    }

    /** `LatestSecondRate`: the last bucket's count if it is the current
        second's, else 0; nothing is pruned. */
    method LatestSecondRate(now: int) returns (n: int)
      requires Valid()
      ensures n == (if |buckets| > 0 && timestamps[|timestamps| - 1] == Truncate(now) then buckets[|buckets| - 1] else 0)
    {
      if |buckets| == 0 {
        return 0;
      }
      var sec := now - now % Second;
      if sec == timestamps[|timestamps| - 1] {
        return buckets[|buckets| - 1];
      }
      return 0;
    }
  }

  /** `StaleCount` is where the pruning loop stops. */
  lemma {:induction false} StaleCountIs(ts: seq<int>, cutoff: int, i: nat)
    requires i <= |ts|
    requires forall j :: 0 <= j < i ==> ts[j] < cutoff
    requires i == |ts| || ts[i] >= cutoff
    ensures StaleCount(ts, cutoff) == i
    decreases i
  {
    if i > 0 {
      StaleCountIs(ts[1..], cutoff, i - 1);
    }
  }

  // ---------------------------------------------------------------------------
  // Properties.

  /** The spike rule without division: at least three buckets, a non-zero
      sum of the earlier ones, and latest × (n − 1) > threshold × that sum. */
  lemma SpikingCrossMultiplied(buckets: seq<int>, threshold: real)
    ensures Spiking(buckets, threshold) <==>
      |buckets| >= 3 && Sum(buckets[..|buckets| - 1]) != 0
      && buckets[|buckets| - 1] as real * (|buckets| - 1) as real > Sum(buckets[..|buckets| - 1]) as real * threshold
  {
    if |buckets| >= 3 {
      var n := (|buckets| - 1) as real;
      var s := Sum(buckets[..|buckets| - 1]) as real;
      var l := buckets[|buckets| - 1] as real;
      assert s / n * n == s;
      if s != 0.0 {
        assert s / n != 0.0;
        assert l > s / n * threshold <==> l * n > s / n * threshold * n;
        assert s / n * threshold * n == s * threshold;
      }
    }
  }

  /** Three quiet seconds of one event each, then a busy one: with threshold
      3 the detector fires once the busy second holds more than three events,
      that is from its fourth event on. */
  lemma SpikeAfterQuietSeconds(k: int)
    ensures Spiking([1, 1, 1, k], 3.0) <==> k > 3
  {
    var b := [1, 1, 1, k];
    assert b[..3] == [1, 1, 1];
    assert [1, 1, 1][..2] == [1, 1] && [1, 1][..1] == [1] && [1][..0] == [];
    assert Sum(b[..3]) == 3;
  }

  /** With a clock that does not run backwards, recording keeps the buckets
      well formed: pruning drops a prefix and the update either bumps the
      last second or opens a later one. */
  lemma RecordKeepsOrder(buckets: seq<int>, ts: seq<int>, window: int, now: int)
    requires Ordered(buckets, ts)
    requires |ts| > 0 ==> ts[|ts| - 1] <= Truncate(now)
    ensures var k := StaleCount(ts, now - window);
      var r := Bump(buckets[k..], ts[k..], Truncate(now));
      Ordered(r.0, r.1)
  {
    var k := StaleCount(ts, now - window);
    SuffixOrdered(buckets, ts, k);
    BumpOrdered(buckets[k..], ts[k..], Truncate(now));
  }

  /** Dropping a prefix keeps a history well formed. */
  lemma SuffixOrdered(buckets: seq<int>, ts: seq<int>, k: nat)
    requires Ordered(buckets, ts) && k <= |ts|
    ensures Ordered(buckets[k..], ts[k..])
  {
    var t := ts[k..];
    forall i, j | 0 <= i < j < |t|
      ensures t[i] < t[j]
    {
      assert t[i] == ts[k + i] && t[j] == ts[k + j];
    }
  }

  /** Counting an event in a whole second no earlier than the last keeps a
      history well formed. */
  lemma BumpOrdered(buckets: seq<int>, ts: seq<int>, sec: int)
    requires Ordered(buckets, ts) && sec % Second == 0
    requires |ts| > 0 ==> ts[|ts| - 1] <= sec
    ensures var r := Bump(buckets, ts, sec); Ordered(r.0, r.1)
  {
    var r := Bump(buckets, ts, sec);
    if !(|ts| > 0 && ts[|ts| - 1] == sec) {
      forall i, j | 0 <= i < j < |r.1|
        ensures r.1[i] < r.1[j]
      {
        if j == |ts| && i < |ts| - 1 {
          assert ts[i] < ts[|ts| - 1];
        }
      }
    }
  }

  /** After pruning a well-ordered history, every bucket left is within the
      window and every bucket dropped was outside it. */
  lemma PruneKeepsWindow(ts: seq<int>, cutoff: int)
    requires forall i, j :: 0 <= i < j < |ts| ==> ts[i] < ts[j]
    ensures var k := StaleCount(ts, cutoff);
      && (forall i :: 0 <= i < k ==> ts[i] < cutoff)
      && (forall i :: k <= i < |ts| ==> ts[i] >= cutoff)
  {
    var k := StaleCount(ts, cutoff);
    if k < |ts| {
      forall i | k <= i < |ts|
        ensures ts[i] >= cutoff
      {
        if i > k {
          assert ts[k] < ts[i];
        }
      }
    }
  }

  /** Fewer than three buckets never spike, and neither does a zero average. */
  lemma NoSpikeWithoutHistory(buckets: seq<int>, threshold: real)
    requires |buckets| < 3 || Sum(buckets[..|buckets| - 1]) == 0
    ensures !Spiking(buckets, threshold)
  {
  }
}
