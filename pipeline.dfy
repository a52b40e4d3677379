/** `pipeline.Run`: the single consumer loop that takes every entry of the
    source through level detection, the ring buffer, the context window or
    the filter chain, the counters and the sinks. The source is the finite
    sequence of entries its channel delivers; the sinks are one object that
    records every call made to them. */
module Pipeline {
  import opened Wrappers
  import opened Text
  import opened Entries
  import opened Filters
  import opened FilterChain
  import opened Context
  import opened RingBuffer
  import opened LineStats

  /** A call the pipeline makes on sink number `sink`. */
  datatype SinkCall = Write(sink: nat, entry: LogEntry) | Flush(sink: nat) | Close(sink: nat)

  /** The registered sinks, in registration order. Whether a `Write` fails is
      decided by `writeError` from the calls made so far, the sink and the
      entry; `Flush` and `Close` errors are ignored by the pipeline and are
      not modelled. */
  class Sinks {
    const names: seq<string>
    const writeError: (seq<SinkCall>, nat, LogEntry) -> Option<string>
    var calls: seq<SinkCall>

    constructor (names: seq<string>, writeError: (seq<SinkCall>, nat, LogEntry) -> Option<string>)
      ensures this.names == names && this.writeError == writeError && calls == []
    {
      this.names := names;
      this.writeError := writeError;
      calls := [];
    }

    method Write(i: nat, e: LogEntry) returns (err: Option<string>)
      requires i < |names|
      modifies this
      ensures calls == old(calls) + [SinkCall.Write(i, e)]
      ensures err == writeError(old(calls), i, e)
    {
      err := writeError(calls, i, e);
      calls := calls + [SinkCall.Write(i, e)];
    }

    method Flush(i: nat)
      requires i < |names|
      modifies this
      ensures calls == old(calls) + [SinkCall.Flush(i)]
    {
      calls := calls + [SinkCall.Flush(i)];
    }

    method Close(i: nat)
      requires i < |names|
      modifies this
      ensures calls == old(calls) + [SinkCall.Close(i)]
    {
      calls := calls + [SinkCall.Close(i)];
    }
  }

  // ---------------------------------------------------------------------------
  // The run as a function of its inputs.

  /** The writes of one entry to sinks `i` up to (not including) `j`. */
  function Writes(e: LogEntry, i: nat, j: nat): (r: seq<SinkCall>)
    requires i <= j
    ensures |r| == j - i
    ensures forall k :: 0 <= k < |r| ==> r[k] == SinkCall.Write(i + k, e)
    decreases j - i
  {
    if i == j then [] else Writes(e, i, j - 1) + [SinkCall.Write(j - 1, e)]
  }

  /** The error message for a failed write to the sink called `name`. */
  function WriteFailure(name: string, err: string): string
  {
    "pipeline: write to " + name + ": " + err
  }

  /** The fan-out of one entry to sinks `i..`: write to each in order, and stop
      at the first write that fails. */
  function FanOut(names: seq<string>, writeError: (seq<SinkCall>, nat, LogEntry) -> Option<string>,
                  calls: seq<SinkCall>, e: LogEntry, i: nat): (r: (seq<SinkCall>, Option<string>))
    requires i <= |names|
    ensures r.1.None? ==> r.0 == calls + Writes(e, i, |names|)
    decreases |names| - i
  {
    if i == |names| then (calls, None)
    else
      var calls' := calls + [SinkCall.Write(i, e)];
      match writeError(calls, i, e)
      case Some(err) => (calls', Some(WriteFailure(names[i], err)))
      case None =>
        WritesShift(calls, e, i, |names|);
        FanOut(names, writeError, calls', e, i + 1)
  }

  /** The first sink from `i` on whose write fails, or `|names|` if none
      does. */
  function FirstFailure(names: seq<string>, writeError: (seq<SinkCall>, nat, LogEntry) -> Option<string>,
                        calls: seq<SinkCall>, e: LogEntry, i: nat): (j: nat)
    requires i <= |names|
    ensures i <= j <= |names|
    decreases |names| - i
  {
    if i == |names| || writeError(calls, i, e).Some? then i
    else FirstFailure(names, writeError, calls + [SinkCall.Write(i, e)], e, i + 1)
  }

  /** A fan-out writes to every sink up to and including the first one that
      fails, and no further: it fails exactly when some sink fails, and then
      its error names that sink and carries that sink's error. */
  lemma {:induction false} FanOutStops(names: seq<string>, writeError: (seq<SinkCall>, nat, LogEntry) -> Option<string>,
                                       calls: seq<SinkCall>, e: LogEntry, i: nat)
    requires i <= |names|
    ensures var j := FirstFailure(names, writeError, calls, e, i);
      var r := FanOut(names, writeError, calls, e, i);
      && (r.1.None? <==> j == |names|)
      && (j < |names| ==>
            && writeError(calls + Writes(e, i, j), j, e).Some?
            && r.0 == calls + Writes(e, i, j + 1)
            && r.1 == Some(WriteFailure(names[j], writeError(calls + Writes(e, i, j), j, e).value)))
    decreases |names| - i
  {
    assert calls + Writes(e, i, i) == calls;
    if i < |names| {
      var calls' := calls + [SinkCall.Write(i, e)];
      if writeError(calls, i, e).Some? {
        assert calls' == calls + Writes(e, i, i + 1);
      } else {
        FanOutStops(names, writeError, calls', e, i + 1);
        var j := FirstFailure(names, writeError, calls', e, i + 1);
        if j < |names| {
          WritesShift(calls, e, i, j);
          WritesShift(calls, e, i, j + 1);
        }
      }
    }
  }

  /** Writing to sink `i` first and then to `i + 1..j` is writing to `i..j`. */
  lemma WritesShift(calls: seq<SinkCall>, e: LogEntry, i: nat, j: nat)
    requires i < j
    ensures calls + [SinkCall.Write(i, e)] + Writes(e, i + 1, j) == calls + Writes(e, i, j)
  {
    var a := calls + [SinkCall.Write(i, e)] + Writes(e, i + 1, j);
    var b := calls + Writes(e, i, j);
    assert |a| == |b|;
    forall k | 0 <= k < |a|
      ensures a[k] == b[k]
    {
      if k > |calls| {
        assert a[k] == Writes(e, i + 1, j)[k - |calls| - 1];
      }
    }
  }

  /** Delivering a list of entries: each one first counts as a match, then is
      fanned out; the first failed write ends the delivery. Returns the calls,
      how many entries were counted as matches and the error. */
  function Deliver(names: seq<string>, writeError: (seq<SinkCall>, nat, LogEntry) -> Option<string>,
                   calls: seq<SinkCall>, outs: seq<LogEntry>): (r: (seq<SinkCall>, nat, Option<string>))
    ensures r.1 <= |outs|
    ensures r.2.None? ==> r.1 == |outs|
    ensures r.2.Some? ==> r.1 >= 1
    decreases |outs|
  {
    if outs == [] then (calls, 0, None)
    else
      var f := FanOut(names, writeError, calls, outs[0], 0);
      if f.1.Some? then (f.0, 1, f.1)
      else
        var d := Deliver(names, writeError, f.0, outs[1..]);
        (d.0, d.1 + 1, d.2)
  }

  /** Where an entry goes after level detection and the ring buffer: through
      the context window (whose chain decides), or through the plain chain,
      where an empty (or absent) chain passes everything. */
  datatype Route =
    | Plain(filters: seq<Filter>, mode: MatchMode)
    | WithContext(ctxFilters: seq<Filter>, ctxMode: MatchMode, before: int, after: int)

  /** The entries one source entry yields for the sinks, and the next context
      window (unchanged in plain mode). */
  function Emit(route: Route, w: Window, e: LogEntry): (r: (seq<LogEntry>, Window))
    ensures route.Plain? ==> r.1 == w && |r.0| <= 1
  {
    match route
    case WithContext(fs, m, b, a) =>
      var o := Evaluate(fs, m, e);
      Step(w, b, a, o.matched, o.entry)
    case Plain(fs, m) =>
      if |fs| == 0 then ([e], w)
      else
        var o := Evaluate(fs, m, e);
        (if o.matched then [o.entry] else [], w)
  }

  /** What a run has done so far: the line and match counters, the entries the
      ring buffer received, the context window, the sink calls and the error
      that ended it, if any. */
  datatype RunState = RunState(total: nat, matched: nat, pushed: seq<LogEntry>, window: Window,
                               calls: seq<SinkCall>, err: Option<string>)

  /** One iteration of the loop: count the line, detect the level, push to the
      ring, route, count and deliver. */
  function Feed(s: RunState, route: Route, names: seq<string>,
                writeError: (seq<SinkCall>, nat, LogEntry) -> Option<string>, e: LogEntry): (r: RunState)
    ensures r.total == s.total + 1 && r.pushed == s.pushed + [CacheLevel(e)]
    ensures r.matched >= s.matched
  {
    var e1 := CacheLevel(e);
    var em := Emit(route, s.window, e1);
    var d := Deliver(names, writeError, s.calls, em.0);
    RunState(s.total + 1, s.matched + d.1, s.pushed + [e1], em.1, d.0, d.2)
  }

  /** The loop over the source: feed each entry until a write fails. */
  function FeedAll(s: RunState, route: Route, names: seq<string>,
                   writeError: (seq<SinkCall>, nat, LogEntry) -> Option<string>, entries: seq<LogEntry>): RunState
    decreases |entries|
  {
    if entries == [] || s.err.Some? then s
    else FeedAll(Feed(s, route, names, writeError, entries[0]), route, names, writeError, entries[1..])
  }

  /** The shutdown calls: `Flush` then `Close` on each of the first `n` sinks,
      in order. */
  function Closing(n: nat): (r: seq<SinkCall>)
    ensures |r| == 2 * n
    ensures forall k :: 0 <= k < n ==> r[2 * k] == SinkCall.Flush(k) && r[2 * k + 1] == SinkCall.Close(k)
  {
    if n == 0 then [] else Closing(n - 1) + [SinkCall.Flush(n - 1), SinkCall.Close(n - 1)]
  }

  /** The route a configuration takes. */
  function RouteOf(chain: Chain?, ctx: ContextBuffer?): Route
    reads chain, ctx, if ctx != null then {ctx.filter} else {}
  {
    if ctx != null then WithContext(ctx.filter.filters, ctx.filter.mode, ctx.beforeN, ctx.afterN)
    else if chain == null then Plain([], MatchAny)
    else Plain(chain.filters, chain.mode)
  }

  /** The run state held by the objects, with the ring's entries given apart
      (there may be no ring) and the error not yet set. */
  ghost function StateOf(stats: Stats, sinks: Sinks, pushed: seq<LogEntry>, ctx: ContextBuffer?): RunState
    reads stats, sinks, ctx
  {
    RunState(stats.totalLines, stats.matchedLines, pushed,
             if ctx != null then Window(ctx.history, ctx.afterCount) else Window([], 0),
             sinks.calls, None)
  }

  // ---------------------------------------------------------------------------
  // The loop itself.

  /** The inner loop over the sinks for one entry. */
  method FanOutWrites(sinks: Sinks, e: LogEntry) returns (err: Option<string>)
    modifies sinks
    ensures (sinks.calls, err) == FanOut(sinks.names, sinks.writeError, old(sinks.calls), e, 0)
  {
    var i := 0;
    while i < |sinks.names|
      invariant 0 <= i <= |sinks.names|
      invariant FanOut(sinks.names, sinks.writeError, old(sinks.calls), e, 0)
             == FanOut(sinks.names, sinks.writeError, sinks.calls, e, i)
    {
      var werr := sinks.Write(i, e);
      if werr.Some? {
        return Some(WriteFailure(sinks.names[i], werr.value));
      }
      i := i + 1;
    }
    return None;
  }

  /** Counting and fanning out the entries one source entry yields. */
  method DeliverAll(sinks: Sinks, stats: Stats, outs: seq<LogEntry>) returns (err: Option<string>)
    modifies sinks, stats
    ensures stats.totalLines == old(stats.totalLines)
    ensures var d := Deliver(sinks.names, sinks.writeError, old(sinks.calls), outs);
      sinks.calls == d.0 && stats.matchedLines == old(stats.matchedLines) + d.1 && err == d.2
  {
    var j := 0;
    while j < |outs|
      invariant 0 <= j <= |outs|
      invariant stats.totalLines == old(stats.totalLines) && stats.matchedLines == old(stats.matchedLines) + j
      invariant var d := Deliver(sinks.names, sinks.writeError, old(sinks.calls), outs);
        var dj := Deliver(sinks.names, sinks.writeError, sinks.calls, outs[j..]);
        d == (dj.0, dj.1 + j, dj.2)
    {
      assert outs[j..][1..] == outs[j + 1..];
      stats.RecordMatch();
      var werr := FanOutWrites(sinks, outs[j]);
      if werr.Some? {
        return werr;
      }
      j := j + 1;
    }
    return None;
  }

  /** The start of the loop body: count the line, detect an unset level and
      push the entry to the ring buffer if there is one. */
  method Intake(e: LogEntry, stats: Stats, ring: Ring?, ghost pushed: seq<LogEntry>)
    returns (x: LogEntry, ghost pushed': seq<LogEntry>)
    requires ring != null ==> ring.Valid() && ring.pushed == pushed
    modifies stats, if ring != null then {ring, ring.entries} else {}
    ensures x == CacheLevel(e)
    ensures stats.totalLines == old(stats.totalLines) + 1 && stats.matchedLines == old(stats.matchedLines)
    ensures ring != null ==> ring.Valid() && ring.pushed == pushed'
    ensures pushed' == pushed + [x]
  {
    stats.RecordLine();
    x := e;
    if x.level == Unknown {
      x := x.(level := LevelDetect.DetectLevel(x.message));
    }
    if ring != null {
      ring.Push(x);
    }
    pushed' := pushed + [x];
  }

  /** The context window's output in context mode, otherwise the entry if the
      (possibly absent or empty) chain lets it through. */
  method RouteEntry(route: Route, chain: Chain?, ctx: ContextBuffer?, x: LogEntry, ghost w: Window)
    returns (outs: seq<LogEntry>)
    requires route == RouteOf(chain, ctx)
    requires ctx != null ==> ctx.Valid() && w == Window(ctx.history, ctx.afterCount)
    requires ctx == null ==> w == Window([], 0)
    modifies if ctx != null then {ctx, ctx.ringBuf} else {}
    ensures ctx != null ==> ctx.Valid()
    ensures (outs, if ctx != null then Window(ctx.history, ctx.afterCount) else Window([], 0)) == Emit(route, w, x)
  {
    if ctx != null {
      var x';
      outs, x' := ctx.Process(x);
    } else if chain != null && chain.Len() > 0 {
      var ok, x';
      ok, x' := chain.Match(x);
      outs := if ok then [x'] else [];
    } else {
      outs := [x];
    }
  }

  /** The body of the loop for one source entry `e`. `pushed` stands for the
      ring's entries, whether or not there is a ring. */
  method Handle(e: LogEntry, route: Route, chain: Chain?, sinks: Sinks, ctx: ContextBuffer?,
                stats: Stats, ring: Ring?, ghost pushed: seq<LogEntry>)
    returns (err: Option<string>, ghost pushed': seq<LogEntry>)
    requires route == RouteOf(chain, ctx)
    requires ring != null ==> ring.Valid() && ring.pushed == pushed
    requires ctx != null ==> ctx.Valid()
    requires ring != null && ctx != null ==> ring.entries != ctx.ringBuf
    modifies sinks, stats, if ring != null then {ring, ring.entries} else {},
      if ctx != null then {ctx, ctx.ringBuf} else {}
    ensures ring != null ==> ring.Valid() && ring.pushed == pushed'
    ensures ctx != null ==> ctx.Valid()
    ensures StateOf(stats, sinks, pushed', ctx).(err := err)
         == Feed(old(StateOf(stats, sinks, pushed, ctx)), route, sinks.names, sinks.writeError, e)
  {
    ghost var w := if ctx != null then Window(ctx.history, ctx.afterCount) else Window([], 0);
    var x;
    x, pushed' := Intake(e, stats, ring, pushed);
    var outs := RouteEntry(route, chain, ctx, x, w);
    err := DeliverAll(sinks, stats, outs);
  }

  /** The `for e := range ch` loop: handle each entry until a write fails. */
  method Stream(entries: seq<LogEntry>, chain: Chain?, sinks: Sinks, ctx: ContextBuffer?, stats: Stats,
                ring: Ring?, ghost pushed: seq<LogEntry>)
    returns (err: Option<string>, ghost pushed': seq<LogEntry>)
    requires ring != null ==> ring.Valid() && ring.pushed == pushed
    requires ctx != null ==> ctx.Valid()
    requires ring != null && ctx != null ==> ring.entries != ctx.ringBuf
    modifies sinks, stats, if ring != null then {ring, ring.entries} else {},
      if ctx != null then {ctx, ctx.ringBuf} else {}
    ensures ring != null ==> ring.Valid() && ring.pushed == pushed'
    ensures ctx != null ==> ctx.Valid()
    ensures StateOf(stats, sinks, pushed', ctx).(err := err)
         == FeedAll(old(StateOf(stats, sinks, pushed, ctx)), RouteOf(chain, ctx), sinks.names, sinks.writeError, entries)
  {
    var route := RouteOf(chain, ctx);
    ghost var s0 := StateOf(stats, sinks, pushed, ctx);
    pushed' := pushed;
    var i := 0;
    while i < |entries|
      invariant 0 <= i <= |entries|
      invariant route == RouteOf(chain, ctx)
      invariant ring != null ==> ring.Valid() && ring.pushed == pushed'
      invariant ctx != null ==> ctx.Valid()
      invariant StateOf(stats, sinks, pushed', ctx) == FeedAll(s0, route, sinks.names, sinks.writeError, entries[..i])
    {
      var werr;
      werr, pushed' := Advance(entries, i, route, chain, sinks, ctx, stats, ring, pushed', s0);
      if werr.Some? {
        return werr, pushed';
      }
      i := i + 1;
    }
    assert entries[..i] == entries;
    return None, pushed';
  }

  /** One pass of the loop over entry `i`, stated against the run from `s0`:
      the objects hold the state after the first `i` entries; afterwards
      they hold the state after `i + 1` entries, or, if the write failed,
      the state of the whole run. */
  method Advance(entries: seq<LogEntry>, i: nat, route: Route, chain: Chain?, sinks: Sinks, ctx: ContextBuffer?,
                 stats: Stats, ring: Ring?, ghost pushed: seq<LogEntry>, ghost s0: RunState)
    returns (err: Option<string>, ghost pushed': seq<LogEntry>)
    requires i < |entries| && route == RouteOf(chain, ctx)
    requires ring != null ==> ring.Valid() && ring.pushed == pushed
    requires ctx != null ==> ctx.Valid()
    requires ring != null && ctx != null ==> ring.entries != ctx.ringBuf
    requires StateOf(stats, sinks, pushed, ctx) == FeedAll(s0, route, sinks.names, sinks.writeError, entries[..i])
    modifies sinks, stats, if ring != null then {ring, ring.entries} else {},
      if ctx != null then {ctx, ctx.ringBuf} else {}
    ensures ring != null ==> ring.Valid() && ring.pushed == pushed'
    ensures ctx != null ==> ctx.Valid()
    ensures err.None? ==> StateOf(stats, sinks, pushed', ctx) == FeedAll(s0, route, sinks.names, sinks.writeError, entries[..i + 1])
    ensures err.Some? ==> StateOf(stats, sinks, pushed', ctx).(err := err) == FeedAll(s0, route, sinks.names, sinks.writeError, entries)
  {
    assert entries[..i + 1] == entries[..i] + [entries[i]];
    FeedAllSnoc(s0, route, sinks.names, sinks.writeError, entries[..i], entries[i]);
    err, pushed' := Handle(entries[i], route, chain, sinks, ctx, stats, ring, pushed);
    if err.Some? {
      assert entries[..i + 1] + entries[i + 1..] == entries;
      FeedAllStops(s0, route, sinks.names, sinks.writeError, entries[..i + 1], entries[i + 1..]);
    }
  }

  /** The loop over `xs` then `e`: the loop over `xs`, then one more pass
      unless a write has already failed. */
  lemma {:induction false} FeedAllSnoc(s: RunState, route: Route, names: seq<string>,
                                       writeError: (seq<SinkCall>, nat, LogEntry) -> Option<string>,
                                       xs: seq<LogEntry>, e: LogEntry)
    ensures var p := FeedAll(s, route, names, writeError, xs);
      FeedAll(s, route, names, writeError, xs + [e]) == if p.err.Some? then p else Feed(p, route, names, writeError, e)
    decreases |xs|
  {
    if xs != [] && s.err.None? {
      assert (xs + [e])[1..] == xs[1..] + [e];
      FeedAllSnoc(Feed(s, route, names, writeError, xs[0]), route, names, writeError, xs[1..], e);
    }
  }

  /** Once a write has failed the loop stops: later entries change nothing. */
  lemma {:induction false} FeedAllStops(s: RunState, route: Route, names: seq<string>,
                                        writeError: (seq<SinkCall>, nat, LogEntry) -> Option<string>,
                                        xs: seq<LogEntry>, ys: seq<LogEntry>)
    requires FeedAll(s, route, names, writeError, xs).err.Some?
    ensures FeedAll(s, route, names, writeError, xs + ys) == FeedAll(s, route, names, writeError, xs)
    decreases |xs|
  {
    if xs != [] && s.err.None? {
      assert (xs + ys)[1..] == xs[1..] + ys;
      FeedAllStops(Feed(s, route, names, writeError, xs[0]), route, names, writeError, xs[1..], ys);
    }
  }

  /** The shutdown loop: `Flush` then `Close` on every sink, in order. */
  method Drain(sinks: Sinks)
    modifies sinks
    ensures sinks.calls == old(sinks.calls) + Closing(|sinks.names|)
  {
    var k := 0;
    while k < |sinks.names|
      invariant 0 <= k <= |sinks.names|
      invariant sinks.calls == old(sinks.calls) + Closing(k)
    {
      sinks.Flush(k);
      sinks.Close(k);
      k := k + 1;
    }
  }

  /** `Run`. `src` is `None` for a missing source, `Some(Err(..))` when the
      source fails to start and `Some(Ok(entries))` for what its channel
      delivers. */
  method Run(src: Option<Result<seq<LogEntry>, string>>, chain: Chain?, sinks: Sinks,
             ctx: ContextBuffer?, stats: Stats, ring: Ring?)
    returns (err: Option<string>)
    requires ring != null ==> ring.Valid()
    requires ctx != null ==> ctx.Valid()
    requires ring != null && ctx != null ==> ring.entries != ctx.ringBuf
    modifies sinks, stats, if ring != null then {ring, ring.entries} else {},
      if ctx != null then {ctx, ctx.ringBuf} else {}
    ensures src.None? ==> err == Some("pipeline: source is required")
    ensures src.Some? && sinks.names == [] ==> err == Some("pipeline: at least one sink is required")
    ensures src.Some? && sinks.names != [] && src.value.Err? ==> err == Some("pipeline: start source: " + src.value.error)
    ensures src.None? || sinks.names == [] || src.value.Err? ==>
      && unchanged(sinks, stats)
      && (ring != null ==> unchanged(ring, ring.entries))
      && (ctx != null ==> unchanged(ctx, ctx.ringBuf))
    ensures src.Some? && sinks.names != [] && src.value.Ok? ==>
      var s0 := RunState(old(stats.totalLines), old(stats.matchedLines),
                         if ring != null then old(ring.pushed) else [],
                         if ctx != null then old(Window(ctx.history, ctx.afterCount)) else Window([], 0),
                         old(sinks.calls), None);
      var r := FeedAll(s0, RouteOf(chain, ctx), sinks.names, sinks.writeError, src.value.value);
      && stats.totalLines == r.total && stats.matchedLines == r.matched
      && (ring != null ==> ring.Valid() && ring.pushed == r.pushed)
      && (ctx != null ==> ctx.Valid() && Window(ctx.history, ctx.afterCount) == r.window)
      && (r.err.Some? ==> err == r.err && sinks.calls == r.calls)
      && (r.err.None? ==> err == None && sinks.calls == r.calls + Closing(|sinks.names|))
  {
    if src.None? {
      return Some("pipeline: source is required");
    }
    if |sinks.names| == 0 {
      return Some("pipeline: at least one sink is required");
    }
    if src.value.Err? {
      return Some("pipeline: start source: " + src.value.error);
    }
    var entries := src.value.value;
    ghost var pushed := if ring != null then ring.pushed else [];
    ghost var pushed';
    err, pushed' := Stream(entries, chain, sinks, ctx, stats, ring, pushed);
    if err.None? {
      Drain(sinks);
    }
  }

  // ---------------------------------------------------------------------------
  // Properties of a run.

  /** The source entries with their levels detected. */
  function Prepared(xs: seq<LogEntry>): (r: seq<LogEntry>)
    ensures |r| == |xs| && forall i :: 0 <= i < |xs| ==> r[i] == CacheLevel(xs[i])
  {
    seq(|xs|, i requires 0 <= i < |xs| => CacheLevel(xs[i]))
  }

  lemma PreparedCons(xs: seq<LogEntry>, k: nat)
    requires k < |xs|
    ensures Prepared(xs[..k + 1]) == [CacheLevel(xs[0])] + Prepared(xs[1..][..k])
  {
    var l, r := Prepared(xs[..k + 1]), [CacheLevel(xs[0])] + Prepared(xs[1..][..k]);
    assert |l| == |r|;
    forall i | 0 <= i < |l|
      ensures l[i] == r[i]
    {
      if i > 0 {
        assert xs[..k + 1][i] == xs[1..][..k][i - 1];
      }
    }
  }

  /** Every entry the stream reaches adds exactly one line and is pushed, with
      its level detected, whatever the filters decide; the stream reaches every
      entry unless a write fails. */
  lemma {:induction false} LinesAndRing(s: RunState, route: Route, names: seq<string>,
                                        writeError: (seq<SinkCall>, nat, LogEntry) -> Option<string>,
                                        entries: seq<LogEntry>)
    ensures var r := FeedAll(s, route, names, writeError, entries);
      && s.total <= r.total <= s.total + |entries|
      && r.pushed == s.pushed + Prepared(entries[..r.total - s.total])
      && (r.total < s.total + |entries| ==> r.err.Some?)
      && (s.err.None? && r.err.None? ==> r.total == s.total + |entries|)
    decreases |entries|
  {
    if entries != [] && s.err.None? {
      var s1 := Feed(s, route, names, writeError, entries[0]);
      LinesAndRing(s1, route, names, writeError, entries[1..]);
      var r := FeedAll(s1, route, names, writeError, entries[1..]);
      assert FeedAll(s, route, names, writeError, entries) == r;
      LinesAndRingStep(s, s1, r, entries);
    } else {
      assert Prepared(entries[..0]) == [];
    }
  }

  /** The step of `LinesAndRing`: one entry fed, then the rest. */
  lemma LinesAndRingStep(s: RunState, s1: RunState, r: RunState, entries: seq<LogEntry>)
    requires entries != [] && s.err.None?
    requires s1.total == s.total + 1 && s1.pushed == s.pushed + [CacheLevel(entries[0])]
    requires s1.total <= r.total <= s1.total + |entries[1..]|
    requires r.pushed == s1.pushed + Prepared(entries[1..][..r.total - s1.total])
    requires r.total < s1.total + |entries[1..]| ==> r.err.Some?
    requires s1.err.None? && r.err.None? ==> r.total == s1.total + |entries[1..]|
    ensures s.total <= r.total <= s.total + |entries|
    ensures r.pushed == s.pushed + Prepared(entries[..r.total - s.total])
    ensures r.total < s.total + |entries| ==> r.err.Some?
    ensures r.err.None? && s1.err.None? ==> r.total == s.total + |entries|
  {
    var k := r.total - s1.total;
    PreparedCons(entries, k);
    assert r.pushed == s.pushed + ([CacheLevel(entries[0])] + Prepared(entries[1..][..k]));
  }

  /** Filtering an entry whose level is detected leaves it as it is: level
      filters only cache what is already cached. */
  lemma ChainKeepsDetected(fs: seq<Filter>, mode: MatchMode, x: LogEntry)
    ensures Evaluate(fs, mode, CacheLevel(x)).entry == CacheLevel(x)
  {
    CacheLevelIdempotent(x);
    if |fs| > 0 {
      ShortCircuit(fs, mode, CacheLevel(x));
    }
  }

  /** The entries a plain run delivers: those the chain lets through (all of
      them when it is empty), with their levels detected. */
  function Passed(fs: seq<Filter>, mode: MatchMode, xs: seq<LogEntry>): (r: seq<LogEntry>)
    ensures |r| <= |xs|
    decreases |xs|
  {
    if xs == [] then []
    else
      var x := CacheLevel(xs[0]);
      (if |fs| == 0 || Evaluate(fs, mode, x).matched then [x] else []) + Passed(fs, mode, xs[1..])
  }

  /** Each delivered entry written to sinks `0..n`, in order. */
  function WritesAll(outs: seq<LogEntry>, n: nat): (r: seq<SinkCall>)
    ensures |r| == |outs| * n
    decreases |outs|
  {
    if outs == [] then [] else Writes(outs[0], 0, n) + WritesAll(outs[1..], n)
  }

  /** A plain run that ends without a write error counts one match per
      delivered entry and writes each delivered entry to every sink in sink
      order; the context window is untouched. */
  lemma {:induction false} PlainRun(s: RunState, fs: seq<Filter>, mode: MatchMode, names: seq<string>,
                                    writeError: (seq<SinkCall>, nat, LogEntry) -> Option<string>,
                                    entries: seq<LogEntry>)
    requires s.err.None?
    requires FeedAll(s, Plain(fs, mode), names, writeError, entries).err.None?
    ensures var r := FeedAll(s, Plain(fs, mode), names, writeError, entries);
      && r.matched == s.matched + |Passed(fs, mode, entries)|
      && r.calls == s.calls + WritesAll(Passed(fs, mode, entries), |names|)
      && r.window == s.window
    decreases |entries|
  {
    if entries != [] {
      var x := CacheLevel(entries[0]);
      var s1 := Feed(s, Plain(fs, mode), names, writeError, entries[0]);
      ChainKeepsDetected(fs, mode, entries[0]);
      var outs := Emit(Plain(fs, mode), s.window, x).0;
      var p := if |fs| == 0 || Evaluate(fs, mode, x).matched then [x] else [];
      assert outs == p;
      var rest := Passed(fs, mode, entries[1..]);
      assert Passed(fs, mode, entries) == p + rest;
      assert FeedAll(s, Plain(fs, mode), names, writeError, entries)
          == FeedAll(s1, Plain(fs, mode), names, writeError, entries[1..]);
      assert s1.err.None?;
      if p != [] {
        assert p[1..] == [];
        var f := FanOut(names, writeError, s.calls, x, 0);
        assert Deliver(names, writeError, f.0, p[1..]) == (f.0, 0, None);
        assert f.1.None?;
        assert s1.calls == f.0;
        assert (p + rest)[0] == x && (p + rest)[1..] == rest;
        assert WritesAll(p + rest, |names|) == Writes(x, 0, |names|) + WritesAll(rest, |names|);
      } else {
        assert s1.calls == s.calls;
        assert p + rest == rest;
      }
      PlainRun(s1, fs, mode, names, writeError, entries[1..]);
      assert s1.calls + WritesAll(rest, |names|) == s.calls + WritesAll(p + rest, |names|);
    }
  }

  /** The lists of a replay, one after another. */
  function Flatten(outs: seq<seq<LogEntry>>): (r: seq<LogEntry>)
    decreases |outs|
  {
    if outs == [] then [] else outs[0] + Flatten(outs[1..])
  }

  /** The `Process` calls a context run makes: for each entry, with its level
      detected, the chain's verdict and the entry as the chain leaves it. */
  function ContextSteps(fs: seq<Filter>, mode: MatchMode, xs: seq<LogEntry>): (r: seq<(bool, LogEntry)>)
    ensures |r| == |xs|
  {
    seq(|xs|, i requires 0 <= i < |xs| =>
      var o := Evaluate(fs, mode, CacheLevel(xs[i])); (o.matched, o.entry))
  }

  /** A delivery with no write error writes each entry to every sink in order. */
  lemma {:induction false} DeliverClean(names: seq<string>, writeError: (seq<SinkCall>, nat, LogEntry) -> Option<string>,
                                        calls: seq<SinkCall>, outs: seq<LogEntry>)
    requires Deliver(names, writeError, calls, outs).2.None?
    ensures Deliver(names, writeError, calls, outs).0 == calls + WritesAll(outs, |names|)
    decreases |outs|
  {
    if outs != [] {
      var f := FanOut(names, writeError, calls, outs[0], 0);
      assert f.1.None?;
      DeliverClean(names, writeError, f.0, outs[1..]);
    }
  }

  /** One context-mode iteration with no write error: the window takes the
      `Process` step for the chain's verdict, and the lines it emits are
      counted and written to every sink. */
  lemma ContextFeed(s: RunState, fs: seq<Filter>, mode: MatchMode, before: int, after: int,
                    names: seq<string>, writeError: (seq<SinkCall>, nat, LogEntry) -> Option<string>, e: LogEntry)
    requires Feed(s, WithContext(fs, mode, before, after), names, writeError, e).err.None?
    ensures var s1 := Feed(s, WithContext(fs, mode, before, after), names, writeError, e);
      var o := Evaluate(fs, mode, CacheLevel(e));
      var st := Step(s.window, before, after, o.matched, o.entry);
      && s1.matched == s.matched + |st.0|
      && s1.calls == s.calls + WritesAll(st.0, |names|)
      && s1.window == st.1
  {
    var o := Evaluate(fs, mode, CacheLevel(e));
    DeliverClean(names, writeError, s.calls, Step(s.window, before, after, o.matched, o.entry).0);
  }

  /** Replaying one more step puts that step's lines first. */
  lemma ReplayCons(w: Window, before: int, after: int, steps: seq<(bool, LogEntry)>)
    requires steps != []
    ensures var st := Step(w, before, after, steps[0].0, steps[0].1);
      && Flatten(Replay(w, before, after, steps)) == st.0 + Flatten(Replay(st.1, before, after, steps[1..]))
      && After(w, before, after, steps) == After(st.1, before, after, steps[1..])
  {
    var st := Step(w, before, after, steps[0].0, steps[0].1);
    var outs := Replay(w, before, after, steps);
    assert outs == [st.0] + Replay(st.1, before, after, steps[1..]);
    assert outs[1..] == Replay(st.1, before, after, steps[1..]);
  }

  /** A context run that ends without a write error: the window takes one
      `Process` step per entry, every line the window emits counts as a match
      and is written to every sink in sink order, and the window ends where
      the replay of those steps leaves it. */
  lemma {:induction false} ContextRun(s: RunState, fs: seq<Filter>, mode: MatchMode, before: int, after: int,
                                      names: seq<string>, writeError: (seq<SinkCall>, nat, LogEntry) -> Option<string>,
                                      entries: seq<LogEntry>)
    requires s.err.None?
    requires FeedAll(s, WithContext(fs, mode, before, after), names, writeError, entries).err.None?
    ensures var r := FeedAll(s, WithContext(fs, mode, before, after), names, writeError, entries);
      var outs := Flatten(Replay(s.window, before, after, ContextSteps(fs, mode, entries)));
      && r.matched == s.matched + |outs|
      && r.calls == s.calls + WritesAll(outs, |names|)
      && r.window == After(s.window, before, after, ContextSteps(fs, mode, entries))
    decreases |entries|
  {
    var route := WithContext(fs, mode, before, after);
    var steps := ContextSteps(fs, mode, entries);
    if entries == [] {
      assert steps == [];
    } else {
      var s1 := Feed(s, route, names, writeError, entries[0]);
      var r := FeedAll(s1, route, names, writeError, entries[1..]);
      assert FeedAll(s, route, names, writeError, entries) == r;
      ContextFeed(s, fs, mode, before, after, names, writeError, entries[0]);
      var o := Evaluate(fs, mode, CacheLevel(entries[0]));
      assert steps[0] == (o.matched, o.entry);
      assert steps[1..] == ContextSteps(fs, mode, entries[1..]);
      ContextRun(s1, fs, mode, before, after, names, writeError, entries[1..]);
      ContextRunStep(s, s1, r, before, after, names, steps);
    }
  }

  /** The step of `ContextRun`: one entry fed, then the rest. */
  lemma ContextRunStep(s: RunState, s1: RunState, r: RunState, before: int, after: int,
                       names: seq<string>, steps: seq<(bool, LogEntry)>)
    requires steps != []
    requires var st := Step(s.window, before, after, steps[0].0, steps[0].1);
      && s1.matched == s.matched + |st.0| && s1.calls == s.calls + WritesAll(st.0, |names|) && s1.window == st.1
    requires var outs := Flatten(Replay(s1.window, before, after, steps[1..]));
      && r.matched == s1.matched + |outs|
      && r.calls == s1.calls + WritesAll(outs, |names|)
      && r.window == After(s1.window, before, after, steps[1..])
    ensures var outs := Flatten(Replay(s.window, before, after, steps));
      && r.matched == s.matched + |outs|
      && r.calls == s.calls + WritesAll(outs, |names|)
      && r.window == After(s.window, before, after, steps)
  {
    ReplayCons(s.window, before, after, steps);
    var st := Step(s.window, before, after, steps[0].0, steps[0].1);
    WritesAllConcat(st.0, Flatten(Replay(st.1, before, after, steps[1..])), |names|);
  }

  /** Writing two lists of entries is writing one, then the other. */
  lemma {:induction false} WritesAllConcat(a: seq<LogEntry>, b: seq<LogEntry>, n: nat)
    ensures WritesAll(a + b, n) == WritesAll(a, n) + WritesAll(b, n)
    decreases |a|
  {
    if a == [] {
      assert a + b == b;
    } else {
      assert (a + b)[0] == a[0] && (a + b)[1..] == a[1..] + b;
      WritesAllConcat(a[1..], b, n);
    }
  }

  /** Sinks that never fail never stop a run. */
  lemma {:induction false} NoWriteErrors(s: RunState, route: Route, names: seq<string>,
                                         writeError: (seq<SinkCall>, nat, LogEntry) -> Option<string>,
                                         entries: seq<LogEntry>)
    requires forall calls, i, e :: writeError(calls, i, e).None?
    ensures FeedAll(s, route, names, writeError, entries).err == s.err
    decreases |entries|
  {
    if entries != [] && s.err.None? {
      var outs := Emit(route, s.window, CacheLevel(entries[0])).0;
      DeliverNeverFails(names, writeError, s.calls, outs);
      NoWriteErrors(Feed(s, route, names, writeError, entries[0]), route, names, writeError, entries[1..]);
    }
  }

  lemma {:induction false} DeliverNeverFails(names: seq<string>, writeError: (seq<SinkCall>, nat, LogEntry) -> Option<string>,
                                             calls: seq<SinkCall>, outs: seq<LogEntry>)
    requires forall calls, i, e :: writeError(calls, i, e).None?
    ensures Deliver(names, writeError, calls, outs).2.None?
    decreases |outs|
  {
    if outs != [] {
      FanOutStops(names, writeError, calls, outs[0], 0);
      FirstFailureNone(names, writeError, calls, outs[0], 0);
      DeliverNeverFails(names, writeError, FanOut(names, writeError, calls, outs[0], 0).0, outs[1..]);
    }
  }

  lemma {:induction false} FirstFailureNone(names: seq<string>, writeError: (seq<SinkCall>, nat, LogEntry) -> Option<string>,
                                            calls: seq<SinkCall>, e: LogEntry, i: nat)
    requires i <= |names|
    requires forall calls, i, e :: writeError(calls, i, e).None?
    ensures FirstFailure(names, writeError, calls, e, i) == |names|
    decreases |names| - i
  {
    if i < |names| {
      FirstFailureNone(names, writeError, calls + [SinkCall.Write(i, e)], e, i + 1);
    }
  }

  /** While entries stream, the pipeline only writes: every call it makes
      before the shutdown loop is a `Write`, so a run that stops on a write
      error never flushes or closes a sink. */
  lemma {:induction false} StreamingOnlyWrites(s: RunState, route: Route, names: seq<string>,
                                               writeError: (seq<SinkCall>, nat, LogEntry) -> Option<string>,
                                               entries: seq<LogEntry>)
    ensures var r := FeedAll(s, route, names, writeError, entries);
      && |s.calls| <= |r.calls| && r.calls[..|s.calls|] == s.calls
      && forall k :: |s.calls| <= k < |r.calls| ==> r.calls[k].Write?
    decreases |entries|
  {
    if entries != [] && s.err.None? {
      var s1 := Feed(s, route, names, writeError, entries[0]);
      DeliverOnlyWrites(names, writeError, s.calls, Emit(route, s.window, CacheLevel(entries[0])).0);
      StreamingOnlyWrites(s1, route, names, writeError, entries[1..]);
      WritesExtend(s.calls, s1.calls, FeedAll(s1, route, names, writeError, entries[1..]).calls);
    }
  }

  /** Appending only writes, twice, appends only writes. */
  lemma WritesExtend(a: seq<SinkCall>, b: seq<SinkCall>, c: seq<SinkCall>)
    requires |a| <= |b| && b[..|a|] == a && forall k :: |a| <= k < |b| ==> b[k].Write?
    requires |b| <= |c| && c[..|b|] == b && forall k :: |b| <= k < |c| ==> c[k].Write?
    ensures |a| <= |c| && c[..|a|] == a && forall k :: |a| <= k < |c| ==> c[k].Write?
  {
    assert c[..|a|] == c[..|b|][..|a|];
    forall k | |a| <= k < |b|
      ensures c[k].Write?
    {
      assert c[k] == c[..|b|][k];
    }
  }

  lemma {:induction false} DeliverOnlyWrites(names: seq<string>, writeError: (seq<SinkCall>, nat, LogEntry) -> Option<string>,
                                             calls: seq<SinkCall>, outs: seq<LogEntry>)
    ensures var d := Deliver(names, writeError, calls, outs);
      && |calls| <= |d.0| && d.0[..|calls|] == calls
      && forall k :: |calls| <= k < |d.0| ==> d.0[k].Write?
    decreases |outs|
  {
    if outs != [] {
      FanOutStops(names, writeError, calls, outs[0], 0);
      var f := FanOut(names, writeError, calls, outs[0], 0);
      DeliverOnlyWrites(names, writeError, f.0, outs[1..]);
    }
  }

  /** A one-keyword chain passes a line exactly when its message contains the
      keyword. */
  lemma KeywordChain(kw: string, x: LogEntry)
    ensures Evaluate([Keyword(kw)], MatchAny, CacheLevel(x)).matched <==> Contains(x.message, kw)
  {
    var y := CacheLevel(x);
    assert y.message == x.message;
    assert MatchAny != MatchAll;
    assert [Keyword(kw)][1..] == [];
    assert Match(Keyword(kw), y) == Outcome(Contains(x.message, kw), y);
    assert EvalAny([], y).matched == false;
  }

  /** The end-to-end example: five lines of which the second and fourth
      contain "ERROR", a keyword filter on "ERROR" and one sink that accepts
      everything: two lines are delivered, the counters read 5 and 2. */
  lemma EndToEndExample(a: LogEntry, b: LogEntry, c: LogEntry, d: LogEntry, e: LogEntry,
                        writeError: (seq<SinkCall>, nat, LogEntry) -> Option<string>)
    requires Contains(b.message, "ERROR") && Contains(d.message, "ERROR")
    requires !Contains(a.message, "ERROR") && !Contains(c.message, "ERROR") && !Contains(e.message, "ERROR")
    requires forall calls, i, x :: writeError(calls, i, x).None?
    ensures var r := FeedAll(RunState(0, 0, [], Window([], 0), [], None), Plain([Keyword("ERROR")], MatchAny),
                             ["out"], writeError, [a, b, c, d, e]);
      && r.err.None? && r.total == 5 && r.matched == 2
      && r.calls == [SinkCall.Write(0, CacheLevel(b)), SinkCall.Write(0, CacheLevel(d))]
  {
    var s := RunState(0, 0, [], Window([], 0), [], None);
    var fs := [Keyword("ERROR")];
    var xs := [a, b, c, d, e];
    NoWriteErrors(s, Plain(fs, MatchAny), ["out"], writeError, xs);
    LinesAndRing(s, Plain(fs, MatchAny), ["out"], writeError, xs);
    PlainRun(s, fs, MatchAny, ["out"], writeError, xs);
    assert xs[1..] == [b, c, d, e] && xs[1..][1..] == [c, d, e] && xs[1..][1..][1..] == [d, e];
    assert [d, e][1..] == [e] && [e][1..] == [];
    KeywordChain("ERROR", a);
    KeywordChain("ERROR", b);
    KeywordChain("ERROR", c);
    KeywordChain("ERROR", d);
    KeywordChain("ERROR", e);
    var p := Passed(fs, MatchAny, xs);
    assert Passed(fs, MatchAny, [e]) == [];
    assert Passed(fs, MatchAny, [d, e]) == [CacheLevel(d)];
    assert Passed(fs, MatchAny, [c, d, e]) == [CacheLevel(d)];
    assert Passed(fs, MatchAny, [b, c, d, e]) == [CacheLevel(b), CacheLevel(d)];
    assert p == [CacheLevel(b), CacheLevel(d)];
    assert WritesAll(p, 1) == Writes(CacheLevel(b), 0, 1) + WritesAll([CacheLevel(d)], 1);
  }

  /** One context-mode step on a line that matches, with one line of
      "before" context and no "after" lines: the window's last line (if any)
      and the line itself are delivered and both count as matches. */
  lemma ContextMatchStep(s: RunState, x: LogEntry, writeError: (seq<SinkCall>, nat, LogEntry) -> Option<string>)
    requires s.err.None? && s.window.afterCount == 0
    requires Contains(x.message, "x")
    requires forall calls, i, y :: writeError(calls, i, y).None?
    ensures var s' := Feed(s, WithContext([Keyword("x")], MatchAny, 1, 0), ["out"], writeError, x);
      && s'.err.None? && s'.total == s.total + 1
      && s'.matched == s.matched + (if s.window.history == [] then 1 else 2)
      && s'.window == Window(s.window.history + [CacheLevel(x)], 0)
  {
    var route := WithContext([Keyword("x")], MatchAny, 1, 0);
    var x' := CacheLevel(x);
    ChainKeepsDetected([Keyword("x")], MatchAny, x);
    KeywordChain("x", x);
    var outs := Emit(route, s.window, x').0;
    assert |outs| == (if s.window.history == [] then 1 else 2);
    DeliverNeverFails(["out"], writeError, s.calls, outs);
  }

  /** In context mode every emitted line counts as a match, context lines
      included, so the match counter can pass the line counter: with one
      line of "before" context, two consecutive matches count three matches
      for two lines, and the reported match rate is 150%. */
  lemma ContextCountsContextLines(a: LogEntry, b: LogEntry,
                                  writeError: (seq<SinkCall>, nat, LogEntry) -> Option<string>)
    requires Contains(a.message, "x") && Contains(b.message, "x")
    requires forall calls, i, x :: writeError(calls, i, x).None?
    ensures var r := FeedAll(RunState(0, 0, [], Window([], 0), [], None), WithContext([Keyword("x")], MatchAny, 1, 0),
                             ["out"], writeError, [a, b]);
      && r.total == 2 && r.matched == 3 && MatchRate(r.total, r.matched) == 150.0
  {
    var route := WithContext([Keyword("x")], MatchAny, 1, 0);
    var s0 := RunState(0, 0, [], Window([], 0), [], None);
    ContextMatchStep(s0, a, writeError);
    var s1 := Feed(s0, route, ["out"], writeError, a);
    ContextMatchStep(s1, b, writeError);
    FeedAllTwo(s0, route, ["out"], writeError, a, b);
    assert MatchRate(2, 3) == 150.0;
  }

  /** The loop over two entries, neither of whose writes fails. */
  lemma FeedAllTwo(s: RunState, route: Route, names: seq<string>,
                   writeError: (seq<SinkCall>, nat, LogEntry) -> Option<string>, a: LogEntry, b: LogEntry)
    requires s.err.None? && Feed(s, route, names, writeError, a).err.None?
    ensures FeedAll(s, route, names, writeError, [a, b])
         == Feed(Feed(s, route, names, writeError, a), route, names, writeError, b)
  {
    var s1 := Feed(s, route, names, writeError, a);
    assert [a, b][1..] == [b] && [b][1..] == [];
    assert FeedAll(s1, route, names, writeError, [b]) == Feed(s1, route, names, writeError, b);
  }
}
