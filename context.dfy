/** `ContextBuffer`: grep-style before/after context lines around the entries a
    filter chain accepts, kept in a small circular history. */
module Context {
  import opened Entries
  import opened Filters
  import opened FilterChain
  import opened Modular

  /** Number of history slots for `before` context lines: one more than
      `before`, and at least one. */
  function HistorySize(before: int): (n: nat)
    ensures n >= 1 && n >= before + 1
    ensures before >= 0 ==> n == before + 1
  {
    if before + 1 < 1 then 1 else before + 1
  }

  /** The last `before` entries of `h` (all of them if there are fewer, none
      if `before` is not positive), oldest first. */
  function Preceding(h: seq<LogEntry>, before: int): (r: seq<LogEntry>)
    ensures |r| == (if before <= 0 then 0 else if before < |h| then before else |h|)
    ensures r == h[|h| - |r|..]
  {
    if before <= 0 then []
    else if before < |h| then h[|h| - before..]
    else h
  }

  /** The state a context buffer's answers depend on: every entry stored so
      far, and the number of "after" lines still owed. */
  datatype Window = Window(history: seq<LogEntry>, afterCount: int)

  /** One `Process` call, given whether the chain matched and the entry as the
      chain left it: the entries to emit and the next window. */
  function Step(w: Window, before: int, after: int, matched: bool, cur: LogEntry): (seq<LogEntry>, Window)
  {
    var h := w.history + [cur];
    if matched then (Preceding(w.history, before) + [cur], Window(h, after))
    else if w.afterCount > 0 then ([cur], Window(h, w.afterCount - 1))
    else ([], Window(h, w.afterCount))
  }

  /** The outputs of a run of `Process` calls, one list per call. */
  function Replay(w: Window, before: int, after: int, steps: seq<(bool, LogEntry)>): (outs: seq<seq<LogEntry>>)
    ensures |outs| == |steps|
    decreases |steps|
  {
    if steps == [] then []
    else
      var (out, w') := Step(w, before, after, steps[0].0, steps[0].1);
      [out] + Replay(w', before, after, steps[1..])
  }

  /** The window after a run of `Process` calls. */
  function After(w: Window, before: int, after: int, steps: seq<(bool, LogEntry)>): Window
    decreases |steps|
  {
    if steps == [] then w
    else After(Step(w, before, after, steps[0].0, steps[0].1).1, before, after, steps[1..])
  }

  class ContextBuffer {
    const filter: Chain
    const beforeN: int
    const afterN: int
    const ringBuf: array<LogEntry>
    var ringPos: nat
    var afterCount: int
    /** Every entry stored so far, in order. */
    ghost var history: seq<LogEntry>

    /** The ring holds, at slot `k % size`, the `k`-th stored entry for each of
        the last `size` entries. */
    ghost predicate Valid()
      reads this, ringBuf
    {
      && ringBuf.Length == HistorySize(beforeN)
      && ringPos == |history|
      && forall k :: ringPos - ringBuf.Length <= k < ringPos && 0 <= k ==> ringBuf[k % ringBuf.Length] == history[k]
    }

    /** `NewContextBuffer(f, before, after)`. */
    constructor (f: Chain, before: int, after: int)
      ensures filter == f && beforeN == before && afterN == after
      ensures ringBuf.Length == HistorySize(before) && fresh(ringBuf)
      ensures history == [] && afterCount == 0
      ensures Valid()
    {
      filter := f;
      beforeN := before;
      afterN := after;
      ringBuf := new LogEntry[HistorySize(before)](_ => ZeroEntry);
      ringPos := 0;
      afterCount := 0;
      history := [];
    }

    /** `Process`: run the chain on the entry, store the entry as the chain left
        it, then emit the before lines and the entry on a match, or the entry
        alone while after lines are owed. Also returns the entry as updated. */
    method Process(e: LogEntry) returns (out: seq<LogEntry>, e': LogEntry)
      requires Valid()
      modifies this, ringBuf
      ensures Valid()
      ensures ringPos == old(ringPos) + 1
      ensures var o := Evaluate(filter.filters, filter.mode, e);
        && e' == o.entry
        && (out, Window(history, afterCount)) == Step(Window(old(history), old(afterCount)), beforeN, afterN, o.matched, e')
    {
      var isMatch;
      isMatch, e' := filter.Match(e);
      var size := ringBuf.Length;
      var p := ringPos;
      ringBuf[p % size] := e';
      ringPos := p + 1;
      history := history + [e'];
      forall k | ringPos - size <= k < ringPos && 0 <= k
        ensures ringBuf[k % size] == history[k]
      {
        if k < p {
          SlotsDistinct(k, p, size);
        }
      }

      if isMatch {
        out := CopyBefore();
        out := out + [e'];
        afterCount := afterN;
        return;
      }

      if afterCount > 0 {
        afterCount := afterCount - 1;
        return [e'], e';
      }
      return [], e';
    }

    /** The before-context loop of `Process`, run once the current entry is
        stored: the ring slots from `ringPos - beforeN - 1` (at least 0) up to
        the current entry's, oldest first. */
    method CopyBefore() returns (out: seq<LogEntry>)
      requires Valid() && |history| >= 1
      ensures out == Preceding(history[..|history| - 1], beforeN)
    {
      ghost var prev := history[..|history| - 1];
      var size := ringBuf.Length;
      var start := ringPos - beforeN - 1;
      if start < 0 {
        start := 0;
      }
      var last := ringPos - 1;
      out := [];
      var i := start;
      while i < last
        invariant start <= i && (i <= last || i == start)
        invariant i <= last ==> out == history[start..i]
        invariant i > last ==> out == []
      {
        assert ringPos - size <= i;
        out := out + [ringBuf[i % size]];
        i := i + 1;
      }
      assert i <= last ==> history[start..i] == prev[start..];
    }
  }

  // ---------------------------------------------------------------------------
  // Properties of a run.

  /** Example: with two before lines and one after line, five
      entries of which only the third matches produce nothing, nothing, the
      first three, the fourth, nothing. */
  lemma WorkedExample(a: LogEntry, b: LogEntry, c: LogEntry, d: LogEntry, e: LogEntry)
    ensures Replay(Window([], 0), 2, 1, [(false, a), (false, b), (true, c), (false, d), (false, e)])
         == [[], [], [a, b, c], [d], []]
  {
    var w0 := Window([], 0);
    var w1 := Window([a], 0);
    var w2 := Window([a, b], 0);
    var w3 := Window([a, b, c], 1);
    var w4 := Window([a, b, c, d], 0);
    assert [] + [a] == [a];
    assert Step(w0, 2, 1, false, a) == ([], w1);
    assert [a] + [b] == [a, b];
    assert Step(w1, 2, 1, false, b) == ([], w2);
    assert Preceding([a, b], 2) == [a, b];
    assert [a, b] + [c] == [a, b, c];
    assert Step(w2, 2, 1, true, c) == ([a, b, c], w3);
    assert [a, b, c] + [d] == [a, b, c, d];
    assert Step(w3, 2, 1, false, d) == ([d], w4);
    var s4 := [(false, e)];
    var s3 := [(false, d)] + s4;
    var s2 := [(true, c)] + s3;
    var s1 := [(false, b)] + s2;
    var s0 := [(false, a)] + s1;
    ReplayStep(w4, 2, 1, (false, e), []);
    assert [(false, e)] + [] == s4;
    ReplayStep(w3, 2, 1, (false, d), s4);
    ReplayStep(w2, 2, 1, (true, c), s3);
    ReplayStep(w1, 2, 1, (false, b), s2);
    ReplayStep(w0, 2, 1, (false, a), s1);
    assert s0 == [(false, a), (false, b), (true, c), (false, d), (false, e)];
  }

  /** One step of a replay. */
  lemma ReplayStep(w: Window, before: int, after: int, x: (bool, LogEntry), rest: seq<(bool, LogEntry)>)
    ensures var (out, w') := Step(w, before, after, x.0, x.1);
      Replay(w, before, after, [x] + rest) == [out] + Replay(w', before, after, rest)
  {
    assert ([x] + rest)[1..] == rest;
  }

  /** A match overwrites the after counter rather than adding to it: a match
      while after lines are still owed leaves exactly `after` owed. */
  lemma AfterResetNotAdditive(w: Window, before: int, after: int, cur: LogEntry)
    requires w.afterCount > 0
    ensures Step(w, before, after, true, cur).1.afterCount == after
    ensures after > 0 ==> Step(w, before, after, true, cur).1.afterCount < w.afterCount + after
  {
  }

  /** Windows overlap without deduplication: with at least one before line,
      two consecutive matches both emit the first of them. */
  lemma OverlapRepeats(w: Window, before: int, after: int, x: LogEntry, y: LogEntry)
    requires before >= 1
    ensures var (out1, w1) := Step(w, before, after, true, x);
      var (out2, _) := Step(w1, before, after, true, y);
      x in out1 && x in out2
  {
    var w1 := Step(w, before, after, true, x).1;
    assert Preceding(w1.history, before) == w1.history[|w1.history| - |Preceding(w1.history, before)|..];
    assert w1.history[|w1.history| - 1] == x;
  }

  /** Once no after lines are owed and nothing matches, nothing is emitted and
      only the history grows. */
  lemma {:induction false} QuietRun(w: Window, before: int, after: int, steps: seq<(bool, LogEntry)>)
    requires w.afterCount <= 0
    requires forall i :: 0 <= i < |steps| ==> !steps[i].0
    ensures forall i :: 0 <= i < |steps| ==> Replay(w, before, after, steps)[i] == []
    ensures After(w, before, after, steps).afterCount == w.afterCount
    decreases |steps|
  {
    if steps != [] {
      var w' := Step(w, before, after, steps[0].0, steps[0].1).1;
      QuietRun(w', before, after, steps[1..]);
      assert forall i :: 1 <= i < |steps| ==> steps[1..][i - 1] == steps[i];
    }
  }

  /** After a match, the next `after` non-matching entries are emitted one by
      one, each on its own. */
  lemma {:induction false} AfterLines(w: Window, before: int, after: int, steps: seq<(bool, LogEntry)>)
    requires forall i :: 0 <= i < |steps| ==> !steps[i].0
    ensures forall i :: 0 <= i < |steps| && i < w.afterCount ==> Replay(w, before, after, steps)[i] == [steps[i].1]
    decreases |steps|
  {
    if steps != [] {
      var w' := Step(w, before, after, steps[0].0, steps[0].1).1;
      AfterLines(w', before, after, steps[1..]);
      assert forall i :: 1 <= i < |steps| ==> steps[1..][i - 1] == steps[i];
    }
  }

  /** The history records every call, whatever the outcome. */
  lemma {:induction false} HistoryRecordsAll(w: Window, before: int, after: int, steps: seq<(bool, LogEntry)>)
    ensures After(w, before, after, steps).history == w.history + seq(|steps|, i requires 0 <= i < |steps| => steps[i].1)
    decreases |steps|
  {
    if steps != [] {
      var w' := Step(w, before, after, steps[0].0, steps[0].1).1;
      HistoryRecordsAll(w', before, after, steps[1..]);
    }
  }
}
