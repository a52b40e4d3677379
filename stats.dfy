/** `Stats`: the pipeline's line counters. The clock is a parameter: `start`
    and `now` are instants in nanoseconds. */
module LineStats {

  /** `matched / total * 100`, or 0 when no line has been seen. */
  function MatchRate(total: nat, matched: nat): (rate: real)
    ensures total == 0 ==> rate == 0.0
    ensures total > 0 ==> rate * (total as real) == (matched as real) * 100.0
    ensures rate >= 0.0
  {
    if total > 0 then (matched as real) / (total as real) * 100.0 else 0.0
  }

  /** With no more matches than lines the rate is a percentage. */
  lemma MatchRateIsPercentage(total: nat, matched: nat)
    requires matched <= total
    ensures 0.0 <= MatchRate(total, matched) <= 100.0
  {
    if total > 0 {
      var rate := MatchRate(total, matched);
      assert rate * (total as real) <= 100.0 * (total as real);
    }
  }

  /** `Rate`: lines per second over `elapsed` nanoseconds, or 0 when no time
      has passed. */
  function LinesPerSecond(total: nat, elapsed: int): (rate: real)
    ensures elapsed == 0 ==> rate == 0.0
    ensures elapsed != 0 ==> rate * (elapsed as real) == (total as real) * 1000000000.0
  {
    if elapsed == 0 then 0.0 else (total as real) / ((elapsed as real) / 1000000000.0)
  }

  class Stats {
    var totalLines: nat
    var matchedLines: nat
    const startTime: int

    /** `NewStats`: both counters start at zero. */
    constructor (now: int)
      ensures totalLines == 0 && matchedLines == 0 && startTime == now
    {
      totalLines := 0;
      matchedLines := 0;
      startTime := now;
    }

    /** `RecordLine`: one more line; the match counter is untouched. */
    method RecordLine()
      modifies this
      ensures totalLines == old(totalLines) + 1 && matchedLines == old(matchedLines)
    {
      totalLines := totalLines + 1;
    }

    /** `RecordMatch`: one more match; the line counter is untouched. */
    method RecordMatch()
      modifies this
      ensures matchedLines == old(matchedLines) + 1 && totalLines == old(totalLines)
    {
      matchedLines := matchedLines + 1;
    }

    function Total(): (n: nat)
      reads this
      ensures n == totalLines
    {
      totalLines
    }

    function Matched(): (n: nat)
      reads this
      ensures n == matchedLines
    {
      matchedLines
    }

    /** `Elapsed`: nanoseconds since construction. */
    function Elapsed(now: int): (d: int)
      reads this
      ensures startTime + d == now
    {
      now - startTime
    }

    /** `Rate` at instant `now`. */
    function Rate(now: int): (rate: real)
      reads this
      ensures rate == LinesPerSecond(totalLines, now - startTime)
      ensures now == startTime ==> rate == 0.0
    {
      LinesPerSecond(Total(), Elapsed(now))
    }

    /** The match rate `Summary` reports. */
    function SummaryMatchRate(): (rate: real)
      reads this
      ensures totalLines == 0 ==> rate == 0.0
      ensures totalLines > 0 ==> rate * (totalLines as real) == (matchedLines as real) * 100.0
    {
      MatchRate(Total(), Matched())
    }
  }
}
