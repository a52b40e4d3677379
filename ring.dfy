/** `Ring`: a fixed-capacity circular buffer of entries that silently evicts
    the oldest entry when full and counts the evictions. */
module RingBuffer {
  import opened Entries
  import opened Modular

  /** Capacity used when the requested one is not positive. */
  const DefaultCapacity: int := 1024

  /** The last `k` elements of `xs` (all of them if there are fewer). */
  function LastN<T>(xs: seq<T>, k: nat): (r: seq<T>)
    ensures |r| == (if k < |xs| then k else |xs|)
    ensures r == xs[|xs| - |r|..]
  {
    if k < |xs| then xs[|xs| - k..] else xs
  }

  class Ring {
    const entries: array<LogEntry>
    var head: int
    var count: int
    const capacity: int
    var dropped: nat
    /** Every entry pushed so far, oldest first. */
    ghost var pushed: seq<LogEntry>

    /** After `n` pushes: `head` is `n mod capacity`, `count` is `min(n,
        capacity)`, `dropped` is the rest, and the `k`-th of the last `count`
        pushes sits at slot `k mod capacity`. */
    ghost predicate Valid()
      reads this, entries
    {
      && capacity >= 1
      && entries.Length == capacity
      && 0 <= head < capacity
      && head == |pushed| % capacity
      && count == (if |pushed| < capacity then |pushed| else capacity)
      && dropped == |pushed| - count
      && Holds(entries[..], pushed, count)
    }

    /** The entries the buffer holds: the last `count` pushes, oldest first. */
    ghost function Contents(): seq<LogEntry>
      reads this
      requires 0 <= count <= |pushed|
    {
      pushed[|pushed| - count..]
    }

    /** `NewRing(capacity)`: a non-positive capacity means 1024. */
    constructor (requested: int)
      ensures Valid() && fresh(entries)
      ensures capacity == (if requested <= 0 then DefaultCapacity else requested)
      ensures pushed == [] && count == 0 && dropped == 0
    {
      var c := requested;
      if c <= 0 {
        c := DefaultCapacity;
      }
      entries := new LogEntry[c](_ => ZeroEntry);
      capacity := c;
      head := 0;
      count := 0;
      dropped := 0;
      pushed := [];
    }

    /** `Push`: write at `head`, advance it circularly, and grow `count` until
        the buffer is full, after which every push evicts one entry. */
    method Push(e: LogEntry)
      requires Valid()
      modifies this, entries
      ensures Valid()
      ensures pushed == old(pushed) + [e]
      ensures count + dropped == old(count) + old(dropped) + 1
      ensures old(count) < capacity ==> count == old(count) + 1 && dropped == old(dropped)
      ensures old(count) == capacity ==> count == old(count) && dropped == old(dropped) + 1
      ensures Contents() == LastN(pushed, capacity)
    {
      ghost var n, slots := |pushed|, entries[..];
      entries[head] := e;
      ModNext(n, capacity);
      if head + 1 < capacity {
        ModOf(head + 1, 0, capacity, head + 1);
      } else {
        ModOf(head + 1, 1, capacity, 0);
      }
      head := (head + 1) % capacity;
      assert head == (n + 1) % capacity;
      if count < capacity {
        count := count + 1;
      } else {
        dropped := dropped + 1;
      }
      pushed := pushed + [e];
      WriteKeeps(slots, old(pushed), old(count), e);
      assert entries[..] == slots[n % capacity := e];
    }

    /** `Snapshot`: a copy of the held entries, oldest first, read from `head`
        to the end and then from the start when the buffer is full. */
    method Snapshot() returns (r: seq<LogEntry>)
      requires Valid()
      ensures r == Contents() && r == LastN(pushed, capacity)
      ensures |r| == Len()
    {
      ghost var slots := entries[..];
      Unwrap(slots, pushed, count);
      if count < capacity {
        r := entries[..count];
        assert r == slots[..count];
      } else {
        var start := head % capacity;
        ModOf(head, 0, capacity, head);
        r := entries[start..] + entries[..start];
        assert r == slots[head..] + slots[..head];
      }
    }

    /** `Len`: the number of held entries, never more than the capacity. */
    function Len(): (n: int)
      reads this, entries
      requires Valid()
      ensures n == |Contents()| && 0 <= n <= capacity
    {
      count
    }

    /** `Dropped`: how many pushes were evicted. */
    function Dropped(): (d: nat)
      reads this, entries
      requires Valid()
      ensures d + Len() == |pushed|
      ensures d == (if |pushed| <= capacity then 0 else |pushed| - capacity)
    {
      dropped
    }

    /** `Cap`: the capacity, which is positive and fixed at construction. */
    function Cap(): (c: int)
      reads this, entries
      requires Valid()
      ensures c >= 1 && c == entries.Length
    {
      capacity
    }
  }

  /** The slot invariant on the array's contents: the `k`-th of the last
      `count` pushes sits at slot `k mod |slots|`. */
  ghost predicate Holds(slots: seq<LogEntry>, pushed: seq<LogEntry>, count: int)
  {
    |slots| >= 1 && forall k :: |pushed| - count <= k < |pushed| && 0 <= k ==> slots[k % |slots|] == pushed[k]
  }

  /** Writing the next push at slot `n mod |slots|` keeps the slot invariant,
      with one more held entry until the buffer is full. */
  lemma WriteKeeps(slots: seq<LogEntry>, pushed: seq<LogEntry>, count: int, e: LogEntry)
    requires Holds(slots, pushed, count)
    requires count == (if |pushed| < |slots| then |pushed| else |slots|)
    ensures var c := if count < |slots| then count + 1 else count;
      Holds(slots[|pushed| % |slots| := e], pushed + [e], c)
  {
    var n, cap := |pushed|, |slots|;
    var c := if count < cap then count + 1 else count;
    var slots', pushed' := slots[n % cap := e], pushed + [e];
    forall k | n + 1 - c <= k < n + 1 && 0 <= k
      ensures slots'[k % cap] == pushed'[k]
    {
      if k < n {
        SlotsDistinct(k, n, cap);
      }
    }
  }

  /** Reading the slots in order: from the start when not yet full, from
      `n mod |slots|` round to it when full, yields the held entries. */
  lemma Unwrap(slots: seq<LogEntry>, pushed: seq<LogEntry>, count: int)
    requires Holds(slots, pushed, count)
    requires count == (if |pushed| < |slots| then |pushed| else |slots|)
    ensures count < |slots| ==> slots[..count] == pushed
    ensures var h := |pushed| % |slots|;
      count == |slots| ==> slots[h..] + slots[..h] == pushed[|pushed| - count..]
  {
    var n, cap := |pushed|, |slots|;
    if count < cap {
      forall j | 0 <= j < count
        ensures slots[j] == pushed[j]
      {
        ModOf(j, 0, cap, j);
      }
    } else {
      var h, q := n % cap, n / cap;
      var r := slots[h..] + slots[..h];
      forall j | 0 <= j < cap
        ensures r[j] == pushed[n - cap + j]
      {
        var k := n - cap + j;
        if h + j < cap {
          ModOf(k, q - 1, cap, h + j);
        } else {
          ModOf(k, q, cap, h + j - cap);
        }
      }
    }
  }

  /** A push slides the window: the last `k` of `xs + [x]` are the last
      `k - 1` of `xs` followed by `x`, so a full buffer loses exactly its
      oldest entry. */
  lemma {:induction false} LastNAppend<T>(xs: seq<T>, x: T, k: nat)
    requires k >= 1
    ensures LastN(xs + [x], k) == LastN(xs, k - 1) + [x]
  {
    var ys := xs + [x];
    var r := LastN(ys, k);
    var l := LastN(xs, k - 1);
    assert |r| == |l| + 1;
    forall i | 0 <= i < |r|
      ensures r[i] == (l + [x])[i]
    {
      if i < |l| {
        assert r[i] == ys[|ys| - |r| + i];
      }
    }
  }
}
