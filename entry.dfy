/** The normalized log record that flows through the whole pipeline, and its
    severity level. */
module Entries {
  import opened Wrappers
  import Text

  /** Severity level: a named integer, as in the source, so values outside the
      six constants exist and print as "UNKNOWN". */
  newtype Level = int
  {
    /** The level's upper-case name; every value other than the five known
        levels, including `Unknown`, is "UNKNOWN". */
    function String(): (r: string)
      ensures IsKnown(this) <==> r != "UNKNOWN"
      ensures IsKnown(this) ==> Text.Upper(r) == r && |r| >= 4
    {
      if this == Debug then "DEBUG"
      else if this == Info then "INFO"
      else if this == Warn then "WARN"
      else if this == Error then "ERROR"
      else if this == Fatal then "FATAL"
      else "UNKNOWN"
    }
  }

  const Unknown: Level := 0
  const Debug: Level := 1
  const Info: Level := 2
  const Warn: Level := 3
  const Error: Level := 4
  const Fatal: Level := 5

  /** One of the five named severities (everything except `Unknown` and
      out-of-range values). */
  predicate IsKnown(l: Level)
  {
    Debug <= l <= Fatal
  }

  /** Go's `ParseLevel`: an exact-spelling switch (despite its "case-insensitive"
      comment, only the listed spellings are accepted). */
  function ParseLevel(s: string): (l: Level)
    ensures l == Unknown || IsKnown(l)
    ensures IsKnown(l) ==> Text.AllWord(s) && 3 <= |s| <= 7
  {
    if s in ["DEBUG", "debug", "Debug"] then Debug
    else if s in ["INFO", "info", "Info"] then Info
    else if s in ["WARN", "warn", "Warn", "WARNING", "warning"] then Warn
    else if s in ["ERROR", "error", "Error", "ERR", "err"] then Error
    else if s in ["FATAL", "fatal", "Fatal", "PANIC", "panic"] then Fatal
    else Unknown
  }

  /** The name each known level prints as parses back to that level, and
      nothing else prints as "UNKNOWN". */
  lemma ParseStringRoundTrip(l: Level)
    ensures IsKnown(l) ==> ParseLevel(l.String()) == l
    ensures !IsKnown(l) ==> l.String() == "UNKNOWN" && ParseLevel(l.String()) == Unknown
  {
  }

  /** Spellings outside the table, even in another letter case, are not levels. */
  lemma ParseRejectsOtherSpellings()
    ensures ParseLevel("Warning") == Unknown && ParseLevel("Panic") == Unknown
    ensures ParseLevel("Err") == Unknown && ParseLevel("ErRoR") == Unknown
  {
  }

  /** The empty string and the name `Unknown` prints as are not levels either. */
  lemma ParseRejectsUnknown()
    ensures ParseLevel("") == Unknown && ParseLevel("UNKNOWN") == Unknown
  {
  }

  /** The aliases: panic spellings are fatal, err spellings are errors. */
  lemma ParseAliases()
    ensures ParseLevel("PANIC") == Fatal && ParseLevel("panic") == Fatal && ParseLevel("Fatal") == Fatal
    ensures ParseLevel("ERR") == Error && ParseLevel("err") == Error
  {
  }

  /** The long spelling of the warning level is accepted beside `WARN`. */
  lemma ParseWarningSpellings()
    ensures ParseLevel("WARNING") == Warn && ParseLevel("warning") == Warn
  {
  }

  /** Severity order follows the constants' values. */
  lemma LevelOrder()
    ensures Unknown < Debug < Info < Warn < Error < Fatal
    ensures forall l: Level :: IsKnown(l) ==> Unknown < l
  {
  }

  /** A byte-slice header: `backing` is the whole underlying array (its length
      is the slice's capacity) and the slice's elements are `backing[..length]`. */
  datatype ByteSlice = ByteSlice(backing: seq<bv8>, length: nat)
  {
    predicate Valid() { length <= |backing| }
    function Bytes(): seq<bv8> requires Valid() { backing[..length] }
  }

  const NilSlice := ByteSlice([], 0)

  /** A Go `LogEntry` value. `fields` is `None` for a nil map; `timestamp` is in
      nanoseconds since the zero time; `seqNo` stands for the unsigned `Seq` counter. */
  datatype LogEntry = LogEntry(
    timestamp: int,
    stream: string,
    level: Level,
    source: string,
    message: string,
    fields: Option<map<string, string>>,
    raw: ByteSlice,
    seqNo: nat)

  /** The zero value of the struct (what `make([]LogEntry, n)` fills in). */
  const ZeroEntry := LogEntry(0, "", Unknown, "", "", None, NilSlice, 0)

  /** Go's `LogEntry.Format`; `rfc3339` renders the timestamp (time formatting
      is not part of this model). The level bracket appears exactly when the
      level is not `Unknown`. */
  function Format(e: LogEntry, rfc3339: int -> string): (r: string)
    ensures |r| >= |rfc3339(e.timestamp)| + |e.stream| + |e.message| + 6
    ensures var ts := rfc3339(e.timestamp);
      && r[..|ts| + |e.stream| + 4] == "[" + ts + "][" + e.stream + "]"
      && r[|r| - |e.message| - 2..] == ": " + e.message
    ensures e.level != Unknown <==>
      |r| == |rfc3339(e.timestamp)| + |e.stream| + |e.level.String()| + |e.message| + 8
    ensures e.level != Unknown ==>
      r[|rfc3339(e.timestamp)| + |e.stream| + 4..|r| - |e.message| - 2] == "[" + e.level.String() + "]"
  {
    var ts := rfc3339(e.timestamp);
    if e.level != Unknown then
      "[" + ts + "][" + e.stream + "][" + e.level.String() + "]: " + e.message
    else
      "[" + ts + "][" + e.stream + "]: " + e.message
  }
}
