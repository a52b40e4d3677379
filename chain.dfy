/** `Chain`: an ordered list of filters combined with AND or OR, evaluated
    left to right with short-circuit. The order matters because the level
    filter caches the detected level into the entry. */
module FilterChain {
  import opened Entries
  import opened Filters

  /** Combination mode, a named integer as in the source. */
  newtype MatchMode = int

  const MatchAny: MatchMode := 0
  const MatchAll: MatchMode := 1

  /** The AND loop: stop at the first filter that does not match. */
  function EvalAll(fs: seq<Filter>, e: LogEntry): Outcome
    decreases |fs|
  {
    if fs == [] then Outcome(true, e)
    else
      var o := Match(fs[0], e);
      if !o.matched then Outcome(false, o.entry) else EvalAll(fs[1..], o.entry)
  }

  /** The OR loop: stop at the first filter that matches. */
  function EvalAny(fs: seq<Filter>, e: LogEntry): Outcome
    decreases |fs|
  {
    if fs == [] then Outcome(false, e)
    else
      var o := Match(fs[0], e);
      if o.matched then Outcome(true, o.entry) else EvalAny(fs[1..], o.entry)
  }

  /** `Chain.Match` as a function of the filter list, the mode and the entry:
      an empty chain passes everything, `MatchAll` is AND, any other mode OR. */
  function Evaluate(fs: seq<Filter>, mode: MatchMode, e: LogEntry): Outcome
  {
    if |fs| == 0 then Outcome(true, e)
    else if mode == MatchAll then EvalAll(fs, e)
    else EvalAny(fs, e)
  }

  /** How many filters the loop calls: up to and including the first whose
      answer decides the chain (false under AND, true under OR), or all. */
  function Invoked(fs: seq<Filter>, decider: bool, e: LogEntry): (n: nat)
    ensures n <= |fs| && (|fs| > 0 ==> n >= 1)
    ensures forall i :: 0 <= i < n - 1 ==> Match(fs[i], e).matched != decider
    ensures n < |fs| ==> Match(fs[n - 1], e).matched == decider
    decreases |fs|
  {
    if fs == [] then 0
    else if Match(fs[0], e).matched == decider then 1
    else 1 + Invoked(fs[1..], decider, e)
  }

  /** The answer that stops the loop: false for AND, true for OR. */
  function Decider(mode: MatchMode): bool
  {
    mode != MatchAll
  }

  /** What calling the filters `fs` in order does to the entry: each level
      filter caches the detected level, the others leave it as it is. */
  function Touched(fs: seq<Filter>, e: LogEntry): LogEntry
    decreases |fs|
  {
    if fs == [] then e
    else Touched(fs[1..], if fs[0].LevelIn? then CacheLevel(e) else e)
  }

  /** The mutable chain. */
  class Chain {
    var filters: seq<Filter>
    var mode: MatchMode

    /** `NewChain(mode, filters...)`. */
    constructor (mode: MatchMode, filters: seq<Filter>)
      ensures this.filters == filters && this.mode == mode
    {
      this.filters := filters;
      this.mode := mode;
    }

    /** `Add` appends at the end; the mode and the earlier filters stay. */
    method Add(f: Filter)
      modifies this
      ensures filters == old(filters) + [f] && mode == old(mode)
      ensures Len() == old(Len()) + 1
    {
      filters := filters + [f];
    }

    /** `Len`: the number of filters. */
    function Len(): (n: nat)
      reads this
      ensures n == |filters|
    {
      |filters|
    }

    /** `Name` depends only on the mode. */
    function Name(): (r: string)
      reads this
      ensures r == (if mode == MatchAll then "FilterChain(AND)" else "FilterChain(OR)")
    {
      if mode == MatchAll then "FilterChain(AND)" else "FilterChain(OR)"
    }

    /** `Match`: the ordered, short-circuiting loop over the filters, each of
        which may update the entry it is handed. */
    method Match(e: LogEntry) returns (matched: bool, e': LogEntry)
      ensures Outcome(matched, e') == Evaluate(filters, mode, e)
    {
      if |filters| == 0 {
        return true, e;
      }
      e' := e;
      var i := 0;
      if mode == MatchAll {
        while i < |filters|
          invariant 0 <= i <= |filters|
          invariant EvalAll(filters, e) == EvalAll(filters[i..], e')
        {
          assert filters[i..][1..] == filters[i + 1..];
          var o := Filters.Match(filters[i], e');
          e' := o.entry;
          if !o.matched {
            return false, e';
          }
          i := i + 1;
        }
        return true, e';
      } else {
        while i < |filters|
          invariant 0 <= i <= |filters|
          invariant EvalAny(filters, e) == EvalAny(filters[i..], e')
        {
          assert filters[i..][1..] == filters[i + 1..];
          var o := Filters.Match(filters[i], e');
          e' := o.entry;
          if o.matched {
            return true, e';
          }
          i := i + 1;
        }
        return false, e';
      }
    }
  }

  // ---------------------------------------------------------------------------
  // Properties of the evaluation.

  /** An empty chain passes every entry, in either mode, untouched. */
  lemma EmptyChainPasses(mode: MatchMode, e: LogEntry)
    ensures Evaluate([], mode, e) == Outcome(true, e)
  {
  }

  /** AND evaluation answers as if every filter saw the original entry. */
  lemma {:induction false} EvalAllMatched(fs: seq<Filter>, e: LogEntry)
    ensures EvalAll(fs, e).matched <==> forall i :: 0 <= i < |fs| ==> Match(fs[i], e).matched
    decreases |fs|
  {
    if fs != [] {
      var o := Match(fs[0], e);
      if o.matched {
        EvalAllMatched(fs[1..], o.entry);
        forall i | 1 <= i < |fs| ensures Match(fs[i], o.entry).matched == Match(fs[i], e).matched {
          MatchIgnoresCaching(fs[i], e);
        }
        assert forall i :: 1 <= i < |fs| ==> fs[1..][i - 1] == fs[i];
      }
    }
  }

  /** OR evaluation answers as if every filter saw the original entry. */
  lemma {:induction false} EvalAnyMatched(fs: seq<Filter>, e: LogEntry)
    ensures EvalAny(fs, e).matched <==> exists i :: 0 <= i < |fs| && Match(fs[i], e).matched
    decreases |fs|
  {
    if fs != [] {
      var o := Match(fs[0], e);
      if !o.matched {
        EvalAnyMatched(fs[1..], o.entry);
        forall i | 1 <= i < |fs| ensures Match(fs[i], o.entry).matched == Match(fs[i], e).matched {
          MatchIgnoresCaching(fs[i], e);
        }
        assert forall i :: 1 <= i < |fs| ==> fs[1..][i - 1] == fs[i];
      }
    }
  }

  /** Threading the entry through the AND loop does to it exactly what the
      filters up to the stopping point do. */
  lemma {:induction false} EvalAllEntry(fs: seq<Filter>, e: LogEntry)
    ensures EvalAll(fs, e).entry == Touched(fs[..Invoked(fs, false, e)], e)
    decreases |fs|
  {
    if fs != [] {
      var o := Match(fs[0], e);
      var n := Invoked(fs, false, e);
      assert fs[..n][1..] == fs[1..][..n - 1];
      if o.matched {
        InvokedIgnoresCaching(fs[1..], false, e);
        EvalAllEntry(fs[1..], o.entry);
      }
    }
  }

  /** The OR counterpart of `EvalAllEntry`. */
  lemma {:induction false} EvalAnyEntry(fs: seq<Filter>, e: LogEntry)
    ensures EvalAny(fs, e).entry == Touched(fs[..Invoked(fs, true, e)], e)
    decreases |fs|
  {
    if fs != [] {
      var o := Match(fs[0], e);
      var n := Invoked(fs, true, e);
      assert fs[..n][1..] == fs[1..][..n - 1];
      if !o.matched {
        InvokedIgnoresCaching(fs[1..], true, e);
        EvalAnyEntry(fs[1..], o.entry);
      }
    }
  }

  /** The stopping point does not depend on whether the level was cached. */
  lemma {:induction false} InvokedIgnoresCaching(fs: seq<Filter>, decider: bool, e: LogEntry)
    ensures Invoked(fs, decider, CacheLevel(e)) == Invoked(fs, decider, e)
    decreases |fs|
  {
    if fs != [] {
      MatchIgnoresCaching(fs[0], e);
      InvokedIgnoresCaching(fs[1..], decider, e);
    }
  }

  /** Calling filters in order caches the level exactly when one of them is a
      level filter; caching twice is caching once. */
  lemma {:induction false} TouchedCaches(fs: seq<Filter>, e: LogEntry)
    ensures Touched(fs, e) == if exists i :: 0 <= i < |fs| && fs[i].LevelIn? then CacheLevel(e) else e
    decreases |fs|
  {
    if fs != [] {
      var e1 := if fs[0].LevelIn? then CacheLevel(e) else e;
      TouchedCaches(fs[1..], e1);
      CacheLevelIdempotent(e);
      if exists i :: 0 <= i < |fs[1..]| && fs[1..][i].LevelIn? {
        var i :| 0 <= i < |fs[1..]| && fs[1..][i].LevelIn?;
        assert fs[i + 1].LevelIn?;
      }
      if exists i :: 0 <= i < |fs| && fs[i].LevelIn? {
        var i :| 0 <= i < |fs| && fs[i].LevelIn?;
        if i > 0 {
          assert fs[1..][i - 1].LevelIn?;
        }
      }
    }
  }

  /** AND mode is true exactly when every filter matches. */
  lemma AllIffEvery(fs: seq<Filter>, e: LogEntry)
    ensures Evaluate(fs, MatchAll, e).matched <==> forall i :: 0 <= i < |fs| ==> Match(fs[i], e).matched
  {
    EvalAllMatched(fs, e);
  }

  /** Any other mode is OR: true exactly when some filter matches, unless the
      chain is empty. */
  lemma OtherIffSome(fs: seq<Filter>, mode: MatchMode, e: LogEntry)
    requires mode != MatchAll && |fs| > 0
    ensures Evaluate(fs, mode, e).matched <==> exists i :: 0 <= i < |fs| && Match(fs[i], e).matched
  {
    EvalAnyMatched(fs, e);
  }

  /** The loop stops at the deciding filter: the chain behaves exactly as the
      prefix of filters it actually calls, and the entry is changed only by a
      level filter in that prefix; later filters never run. */
  lemma ShortCircuit(fs: seq<Filter>, mode: MatchMode, e: LogEntry)
    requires |fs| > 0
    ensures var n := Invoked(fs, Decider(mode), e);
      && Evaluate(fs, mode, e).entry
         == (if exists i :: 0 <= i < n && fs[i].LevelIn? then CacheLevel(e) else e)
      && Evaluate(fs, mode, e).matched == Evaluate(fs[..n], mode, e).matched
  {
    var n := Invoked(fs, Decider(mode), e);
    var p := fs[..n];
    TouchedCaches(p, e);
    assert forall i :: 0 <= i < n ==> p[i] == fs[i];
    if mode == MatchAll {
      EvalAllEntry(fs, e);
      EvalAllMatched(fs, e);
      EvalAllMatched(p, e);
    } else {
      EvalAnyEntry(fs, e);
      EvalAnyMatched(fs, e);
      EvalAnyMatched(p, e);
    }
  }
}
