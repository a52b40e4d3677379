/** The concrete filters: keyword, exclude, level and (abstract) regex. Each
    filter's `Match` may update the entry it is given; here that update is the
    `entry` of the returned `Outcome`. */
module Filters {
  import opened Text
  import opened Entries
  import opened LevelDetect

  /** A filter value. `Regex` carries its compiled pattern as an abstract
      predicate on the message (the regex engine is not part of this model);
      `LevelIn` carries the set of levels its map holds as `true`. */
  datatype Filter =
    | Keyword(keyword: string)
    | Exclude(patterns: seq<string>)
    | LevelIn(allowed: set<Level>)
    | Regex(pattern: string, matches: string -> bool)

  /** The result of `Match(e *LogEntry) bool`: the answer and the entry as the
      filter left it. */
  datatype Outcome = Outcome(matched: bool, entry: LogEntry)

  /** The level an entry has once detection has run on it: a set level is kept,
      an `Unknown` one is replaced by `DetectLevel(message)`. */
  function CacheLevel(e: LogEntry): (r: LogEntry)
    ensures r.level == (if e.level == Unknown then DetectLevel(e.message) else e.level)
    ensures r.(level := e.level) == e
  {
    if e.level == Unknown then e.(level := DetectLevel(e.message)) else e
  }

  /** Detection runs at most once in effect: caching twice is caching once. */
  lemma CacheLevelIdempotent(e: LogEntry)
    ensures CacheLevel(CacheLevel(e)) == CacheLevel(e)
  {
    if e.level == Unknown && DetectLevel(e.message) == Unknown {
      assert CacheLevel(e) == e;
    }
  }

  // ---------------------------------------------------------------------------
  // keyword.go

  /** `KeywordFilter.Match`: case-sensitive substring test on the message. */
  function KeywordMatch(keyword: string, e: LogEntry): (r: bool)
    ensures r <==> exists i :: OccursAt(e.message, keyword, i)
  {
    Contains(e.message, keyword)
  }

  /** The empty keyword matches every entry. */
  lemma EmptyKeywordMatchesAll(e: LogEntry)
    ensures KeywordMatch("", e)
  {
    assert OccursAt(e.message, "", 0);
  }

  /** `KeywordFilter.Name`. */
  function KeywordName(keyword: string): (r: string)
    ensures |r| == |keyword| + 8 && r[8..] == keyword && r[..8] == "keyword:"
  {
    "keyword:" + keyword
  }

  // ---------------------------------------------------------------------------
  // exclude.go

  /** `ExcludeFilter.Match`: the loop returns false at the first pattern found
      in the message, and true when none is. */
  function ExcludeMatch(patterns: seq<string>, e: LogEntry): (r: bool)
    ensures r <==> forall k :: 0 <= k < |patterns| ==> !Contains(e.message, patterns[k])
    decreases |patterns|
  {
    if patterns == [] then true
    else if Contains(e.message, patterns[0]) then false
    else ExcludeMatch(patterns[1..], e)
  }

  /** No patterns: everything passes. */
  lemma ExcludeNothing(e: LogEntry)
    ensures ExcludeMatch([], e)
  {
  }

  /** An empty pattern occurs in every message, so it rejects every entry. */
  lemma ExcludeEmptyPatternRejectsAll(patterns: seq<string>, e: LogEntry)
    requires "" in patterns
    ensures !ExcludeMatch(patterns, e)
  {
    var k :| 0 <= k < |patterns| && patterns[k] == "";
    assert OccursAt(e.message, "", 0);
  }

  /** Only which patterns are present matters, not their order or repetition. */
  lemma ExcludeOrderIrrelevant(p: seq<string>, q: seq<string>, e: LogEntry)
    requires forall x :: x in p <==> x in q
    ensures ExcludeMatch(p, e) == ExcludeMatch(q, e)
  {
    ExcludeFewer(p, q, e);
    ExcludeFewer(q, p, e);
  }

  lemma ExcludeFewer(p: seq<string>, q: seq<string>, e: LogEntry)
    requires forall x :: x in q ==> x in p
    ensures ExcludeMatch(p, e) ==> ExcludeMatch(q, e)
  {
    if ExcludeMatch(p, e) {
      forall k | 0 <= k < |q| ensures !Contains(e.message, q[k]) {
        assert q[k] in p;
        var j :| 0 <= j < |p| && p[j] == q[k];
      }
    }
  }

  /** `ExcludeFilter.Name`. */
  function ExcludeName(patterns: seq<string>): (r: string)
    ensures |r| >= 8 && r[..8] == "exclude:" && r[8..] == Join(patterns, ",")
  {
    "exclude:" + Join(patterns, ",")
  }

  // ---------------------------------------------------------------------------
  // level.go

  /** `LevelFilter.Match`: an `Unknown` level is detected from the message and
      stored into the entry; the answer is whether the level is allowed. */
  function LevelMatch(allowed: set<Level>, e: LogEntry): (o: Outcome)
    ensures o.entry == CacheLevel(e)
    ensures o.matched <==> o.entry.level in allowed
    ensures e.level != Unknown ==> o.entry == e
  {
    var level := if e.level == Unknown then DetectLevel(e.message) else e.level;
    Outcome(level in allowed, if e.level == Unknown then e.(level := level) else e)
  }

  /** A second call answers the same and changes nothing more. */
  lemma LevelMatchTwice(allowed: set<Level>, e: LogEntry)
    ensures LevelMatch(allowed, LevelMatch(allowed, e).entry) == LevelMatch(allowed, e)
  {
    CacheLevelIdempotent(e);
  }

  /** A level filter built from no levels rejects every entry. */
  lemma NoLevelsRejectAll(e: LogEntry)
    ensures !LevelMatch({}, e).matched
  {
  }

  /** The allowed set a list of levels stands for. */
  function AllowedOf(levels: seq<Level>): (r: set<Level>)
    ensures forall l :: l in r <==> l in levels
  {
    set l | l in levels
  }

  /** `NewLevelFilter`: the loop marks every listed level as allowed. */
  method NewLevelFilter(levels: seq<Level>) returns (f: Filter)
    ensures f == LevelIn(AllowedOf(levels))
    ensures forall l :: l in f.allowed <==> l in levels
  {
    var allowed: set<Level> := {};
    for i := 0 to |levels|
      invariant forall l :: l in allowed <==> l in levels[..i]
    {
      allowed := allowed + {levels[i]};
    }
    assert levels[..|levels|] == levels;
    assert forall l :: l in allowed <==> l in AllowedOf(levels);
    assert allowed == AllowedOf(levels);
    return LevelIn(allowed);
  }

  /** Level filters built from lists with the same levels, in any order and
      with any repetitions, give every entry the same answer and the same
      cached level; in particular listing a level again changes nothing. */
  lemma DuplicateLevelsNoEffect(levels: seq<Level>, others: seq<Level>, l: Level, e: LogEntry)
    requires forall x :: x in others <==> x in levels
    requires l in levels
    ensures LevelMatch(AllowedOf(others), e) == LevelMatch(AllowedOf(levels), e)
    ensures LevelMatch(AllowedOf(levels + [l]), e) == LevelMatch(AllowedOf(levels), e)
  {
    assert forall x :: x in AllowedOf(others) <==> x in AllowedOf(levels);
    assert AllowedOf(others) == AllowedOf(levels);
    assert forall x :: x in AllowedOf(levels + [l]) <==> x in AllowedOf(levels);
    assert AllowedOf(levels + [l]) == AllowedOf(levels);
  }

  // ---------------------------------------------------------------------------
  // filter.go: the interface, dispatched over the filter kinds

  /** `Filter.Match` for each kind of filter. Only the level filter changes
      the entry. */
  function Match(f: Filter, e: LogEntry): (o: Outcome)
    ensures o.entry == (if f.LevelIn? then CacheLevel(e) else e)
  {
    match f
    case Keyword(kw) => Outcome(KeywordMatch(kw, e), e)
    case Exclude(ps) => Outcome(ExcludeMatch(ps, e), e)
    case LevelIn(allowed) => LevelMatch(allowed, e)
    case Regex(_, matches) => Outcome(matches(e.message), e)
  }

  /** The only change a filter makes is level caching, and caching does not
      change any filter's answer: filters see the same verdict whichever of
      them ran first. */
  lemma MatchIgnoresCaching(f: Filter, e: LogEntry)
    ensures Match(f, CacheLevel(e)).matched == Match(f, e).matched
  {
    CacheLevelIdempotent(e);
  }
}
