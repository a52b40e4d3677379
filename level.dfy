/** Level auto-detection: the source scans a message with the case-insensitive
    regular expression `\b(DEBUG|TRACE|INFO|WARN(?:ING)?|ERR(?:OR)?|FATAL|PANIC|CRITICAL)\b`
    and maps the upper-cased match through a keyword table. The regex is
    modelled as its leftmost-first search; the lemmas show it finds the
    leftmost whole ASCII word that is a level keyword. */
module LevelDetect {
  import opened Wrappers
  import opened Text
  import opened Entries

  /** One row of the source's `levelPatterns` table. */
  datatype Row = Row(keywords: seq<string>, level: Level)

  /** `levelPatterns`, in the source's order. */
  const LevelPatterns: seq<Row> := [
    Row(["ERROR", "ERR"], Error),
    Row(["WARN", "WARNING"], Warn),
    Row(["INFO"], Info),
    Row(["DEBUG", "TRACE"], Debug),
    Row(["FATAL", "PANIC", "CRITICAL"], Fatal)
  ]

  /** Every keyword of the table. */
  const Keywords: set<string> :=
    {"ERROR", "ERR", "WARN", "WARNING", "INFO", "DEBUG", "TRACE", "FATAL", "PANIC", "CRITICAL"}

  /** The regex's alternatives in the order its leftmost-first alternation
      tries them (`WARN(?:ING)?` tries the longer form first, as does `ERR(?:OR)?`). */
  const Alternatives: seq<string> :=
    ["DEBUG", "TRACE", "INFO", "WARNING", "WARN", "ERROR", "ERR", "FATAL", "PANIC", "CRITICAL"]

  /** The nested table scan: first row, then first keyword within the row. */
  function LookupIn(table: seq<Row>, w: string): (l: Level)
    ensures l != Unknown ==> exists k :: 0 <= k < |table| && w in table[k].keywords && l == table[k].level
    ensures (forall k :: 0 <= k < |table| ==> w !in table[k].keywords) ==> l == Unknown
    decreases |table|
  {
    if table == [] then Unknown
    else if w in table[0].keywords then table[0].level
    else LookupIn(table[1..], w)
  }

  /** The level an upper-cased keyword maps to. */
  function KeywordLevel(w: string): Level
  {
    LookupIn(LevelPatterns, w)
  }

  /** The table's mapping, keyword by keyword; a word outside it is `Unknown`. */
  lemma KeywordTable(w: string)
    ensures KeywordLevel(w) != Unknown <==> w in Keywords
    ensures KeywordLevel(w) == Unknown || IsKnown(KeywordLevel(w))
    ensures w == "ERROR" || w == "ERR" ==> KeywordLevel(w) == Error
    ensures w == "WARN" || w == "WARNING" ==> KeywordLevel(w) == Warn
    ensures w == "INFO" ==> KeywordLevel(w) == Info
    ensures w == "DEBUG" || w == "TRACE" ==> KeywordLevel(w) == Debug
    ensures w == "FATAL" || w == "PANIC" || w == "CRITICAL" ==> KeywordLevel(w) == Fatal
  {
    var t0 := LevelPatterns;
    var t1, t2, t3, t4 := t0[1..], t0[2..], t0[3..], t0[4..];
    assert t0[0] == Row(["ERROR", "ERR"], Error) && t1 == t0[1..];
    assert t1[0] == Row(["WARN", "WARNING"], Warn) && t2 == t1[1..];
    assert t2[0] == Row(["INFO"], Info) && t3 == t2[1..];
    assert t3[0] == Row(["DEBUG", "TRACE"], Debug) && t4 == t3[1..];
    assert t4[0] == Row(["FATAL", "PANIC", "CRITICAL"], Fatal) && t4[1..] == [];
    if w !in t0[0].keywords {
      assert LookupIn(t0, w) == LookupIn(t1, w);
      if w !in t1[0].keywords {
        assert LookupIn(t1, w) == LookupIn(t2, w);
        if w !in t2[0].keywords {
          assert LookupIn(t2, w) == LookupIn(t3, w);
          if w !in t3[0].keywords {
            assert LookupIn(t3, w) == LookupIn(t4, w);
            if w !in t4[0].keywords {
              assert LookupIn(t4, w) == LookupIn(t4[1..], w) == Unknown;
            }
          }
        }
      }
    }
  }

  /** Every word the regex can match is in the table, so the table lookup after
      a regex hit never falls through to `Unknown`. */
  lemma AlternativesAreKeywords()
    ensures forall a :: a in Alternatives <==> a in Keywords
    ensures forall a :: a in Alternatives ==> KeywordLevel(a) != Unknown
  {
    forall a | a in Alternatives ensures KeywordLevel(a) != Unknown {
      KeywordTable(a);
    }
  }

  /** `\b` at offset `i`: exactly one of the bytes around `i` is a word byte. */
  predicate Boundary(s: string, i: int)
    requires 0 <= i <= |s|
  {
    (i > 0 && IsWordChar(s[i - 1])) != (i < |s| && IsWordChar(s[i]))
  }

  /** Case-insensitive (ASCII) comparison of `s[i..]` with the upper-case word `a`. */
  predicate FoldedAt(s: string, i: nat, a: string)
  {
    i + |a| <= |s| && Upper(s[i..i + |a|]) == a
  }

  /** One regex attempt at offset `i`: the first alternative that matches there
      between two boundaries, as the original-case matched text. */
  function MatchAt(s: string, i: nat, alts: seq<string>): (m: Option<string>)
    requires i <= |s|
    ensures m.Some? ==> exists a :: (a in alts && FoldedAt(s, i, a) && m.value == s[i..i + |a|]
      && Boundary(s, i) && Boundary(s, i + |a|))
    decreases |alts|
  {
    if alts == [] then None
    else if FoldedAt(s, i, alts[0]) && Boundary(s, i) && Boundary(s, i + |alts[0]|) then
      Some(s[i..i + |alts[0]|])
    else MatchAt(s, i, alts[1..])
  }

  /** A leftmost-first search over the offsets `i` to `n`: the result of the
      first `attempt` that succeeds. */
  function FindIn(n: nat, i: nat, attempt: nat -> Option<string>): Option<string>
    requires i <= n
    decreases n - i
  {
    match attempt(i)
    case Some(w) => Some(w)
    case None => if i == n then None else FindIn(n, i + 1, attempt)
  }

  /** The level regex tried at each offset of `s`. */
  function Attempts(s: string): nat -> Option<string>
  {
    (i: nat) => if i <= |s| then MatchAt(s, i, Alternatives) else None
  }

  /** The regex's `FindString` from offset `i`. */
  function FindFrom(s: string, i: nat): Option<string>
    requires i <= |s|
  {
    FindIn(|s|, i, Attempts(s))
  }

  /** Go's `DetectLevel`: find the first regex match, upper-case it, look it up. */
  function DetectLevel(msg: string): Level
  {
    match FindFrom(msg, 0)
    case None => Unknown
    case Some(w) => KeywordLevel(Upper(w))
  }

  // ---------------------------------------------------------------------------
  // The whole-word reading of the regex.

  /** A whole ASCII word starts at offset `i`. */
  predicate WordStart(s: string, i: int)
  {
    0 <= i < |s| && IsWordChar(s[i]) && (i == 0 || !IsWordChar(s[i - 1]))
  }

  /** A whole ASCII word starts at `i` and, upper-cased, is a level keyword. */
  ghost predicate KeywordAt(s: string, i: int)
  {
    WordStart(s, i) && Upper(s[i..WordEnd(s, i)]) in Keywords
  }

  /** A non-empty word of upper-case ASCII letters. */
  predicate UpperWord(a: string)
  {
    |a| > 0 && forall k :: 0 <= k < |a| ==> 'A' <= a[k] <= 'Z'
  }

  lemma AlternativesAreUpperWords()
    ensures forall a :: a in Alternatives ==> UpperWord(a)
  {
  }

  lemma UpperLetters(s: string, a: string)
    requires Upper(s) == a && UpperWord(a)
    ensures forall k :: 0 <= k < |s| ==> IsWordChar(s[k])
  {
    forall k | 0 <= k < |s| ensures IsWordChar(s[k]) {
      assert UpperChar(s[k]) == a[k];
    }
  }

  /** A single regex attempt succeeds exactly at the start of a word that,
      upper-cased, is one of the alternatives, and then matches the whole word. */
  lemma MatchAtIsWholeWord(s: string, i: nat, alts: seq<string>)
    requires i <= |s|
    requires forall a :: a in alts ==> UpperWord(a)
    ensures MatchAt(s, i, alts).Some? ==>
      WordStart(s, i) && Upper(s[i..WordEnd(s, i)]) in alts && MatchAt(s, i, alts).value == s[i..WordEnd(s, i)]
    ensures WordStart(s, i) && Upper(s[i..WordEnd(s, i)]) in alts ==> MatchAt(s, i, alts).Some?
  {
    MatchAtSomeIsWord(s, i, alts);
    MatchAtFindsWord(s, i, alts);
  }

  /** A successful attempt matched a whole word that upper-cases to an
      alternative. */
  lemma MatchAtSomeIsWord(s: string, i: nat, alts: seq<string>)
    requires i <= |s|
    requires forall a :: a in alts ==> UpperWord(a)
    ensures MatchAt(s, i, alts).Some? ==>
      WordStart(s, i) && Upper(s[i..WordEnd(s, i)]) in alts && MatchAt(s, i, alts).value == s[i..WordEnd(s, i)]
  {
    var m := MatchAt(s, i, alts);
    if m.Some? {
      var a :| a in alts && FoldedAt(s, i, a) && m.value == s[i..i + |a|] && Boundary(s, i) && Boundary(s, i + |a|);
      FoldedIsWord(s, i, a);
      assert s[i..WordEnd(s, i)] == m.value;
      assert Upper(m.value) == a;
    }
  }

  /** An attempt at the start of a whole word that upper-cases to an
      alternative succeeds. */
  lemma {:induction false} MatchAtFindsWord(s: string, i: nat, alts: seq<string>)
    requires i <= |s|
    requires forall a :: a in alts ==> UpperWord(a)
    ensures WordStart(s, i) && Upper(s[i..WordEnd(s, i)]) in alts ==> MatchAt(s, i, alts).Some?
    decreases |alts|
  {
    if alts != [] && WordStart(s, i) && Upper(s[i..WordEnd(s, i)]) in alts {
      var a := alts[0];
      if !(FoldedAt(s, i, a) && Boundary(s, i) && Boundary(s, i + |a|)) {
        WholeWordFolds(s, i, a);
        assert alts == [a] + alts[1..];
        MatchAtFindsWord(s, i, alts[1..]);
      }
    }
  }

  /** An alternative spelled between two boundaries is a whole word. */
  lemma FoldedIsWord(s: string, i: nat, a: string)
    requires UpperWord(a) && FoldedAt(s, i, a) && Boundary(s, i) && Boundary(s, i + |a|)
    ensures WordStart(s, i) && WordEnd(s, i) == i + |a|
  {
    var w := s[i..i + |a|];
    UpperLetters(w, a);
    forall k | i <= k < i + |a| ensures IsWordChar(s[k]) {
      assert s[k] == w[k - i];
    }
    WordEndAt(s, i, i + |a|);
  }

  /** A whole word that upper-cases to an alternative is spelled between two
      boundaries. */
  lemma WholeWordFolds(s: string, i: nat, a: string)
    requires i <= |s| && UpperWord(a)
    ensures WordStart(s, i) && Upper(s[i..WordEnd(s, i)]) == a ==>
      FoldedAt(s, i, a) && Boundary(s, i) && Boundary(s, i + |a|)
  {
    if WordStart(s, i) && Upper(s[i..WordEnd(s, i)]) == a {
      var j := WordEnd(s, i);
      assert j == i + |a|;
      assert IsWordChar(s[j - 1]);
    }
  }

  /** `KeywordAt` in terms of the regex attempt over all alternatives. */
  lemma MatchAtIffKeyword(s: string, i: nat)
    requires i <= |s|
    ensures MatchAt(s, i, Alternatives).Some? <==> KeywordAt(s, i)
    ensures KeywordAt(s, i) ==> MatchAt(s, i, Alternatives).value == s[i..WordEnd(s, i)]
  {
    AlternativesAreKeywords();
    AlternativesAreUpperWords();
    MatchAtIsWholeWord(s, i, Alternatives);
  }

  /** The search from `i` stops at the first offset where an attempt
      succeeds. */
  lemma {:induction false} FindFromFirstHit(n: nat, i: nat, attempt: nat -> Option<string>)
    requires i <= n
    ensures FindIn(n, i, attempt).None? <==> forall j :: i <= j <= n ==> attempt(j).None?
    ensures FindIn(n, i, attempt).Some? ==> exists j :: (i <= j <= n && attempt(j).Some?
      && (forall k :: i <= k < j ==> attempt(k).None?)
      && FindIn(n, i, attempt).value == attempt(j).value)
    decreases n - i
  {
    if attempt(i).None? && i < n {
      FindFromFirstHit(n, i + 1, attempt);
      if FindIn(n, i, attempt).Some? {
        var j :| i + 1 <= j <= n && attempt(j).Some?
          && (forall k :: i + 1 <= k < j ==> attempt(k).None?)
          && FindIn(n, i + 1, attempt).value == attempt(j).value;
        assert forall k :: i <= k < j ==> attempt(k).None?;
      }
    }
  }

  /** The regex attempt at an offset succeeds exactly where a keyword word
      starts, and then matches that word. */
  lemma AttemptIffKeyword(s: string, j: nat)
    requires j <= |s|
    ensures Attempts(s)(j).Some? <==> KeywordAt(s, j)
    ensures KeywordAt(s, j) ==> j < |s| && Attempts(s)(j).value == s[j..WordEnd(s, j)]
  {
    MatchAtIffKeyword(s, j);
  }

  /** The search from `i` finds the first keyword word at or after `i`. */
  lemma FindFromIsLeftmost(s: string, i: nat)
    requires i <= |s|
    ensures FindFrom(s, i).None? <==> forall j :: i <= j <= |s| ==> !KeywordAt(s, j)
    ensures FindFrom(s, i).Some? ==> exists j :: (i <= j < |s| && KeywordAt(s, j)
      && (forall k :: i <= k < j ==> !KeywordAt(s, k))
      && FindFrom(s, i).value == s[j..WordEnd(s, j)])
  {
    var att := Attempts(s);
    forall j | i <= j <= |s|
      ensures att(j).Some? <==> KeywordAt(s, j)
      ensures KeywordAt(s, j) ==> j < |s| && att(j).value == s[j..WordEnd(s, j)]
    {
      AttemptIffKeyword(s, j);
    }
    FindFromFirstHit(|s|, i, att);
  }

  /** `DetectLevel` is `Unknown` exactly when the message has no whole-word,
      case-insensitive level keyword. */
  lemma DetectUnknownIff(msg: string)
    ensures DetectLevel(msg) == Unknown <==> forall i :: !KeywordAt(msg, i)
  {
    FindFromIsLeftmost(msg, 0);
    match FindFrom(msg, 0)
    case None =>
    case Some(w) =>
      var j :| 0 <= j < |msg| && KeywordAt(msg, j) && w == msg[j..WordEnd(msg, j)];
      KeywordTable(Upper(w));
  }

  /** Otherwise the leftmost keyword word decides the level through the table. */
  lemma DetectLeftmostKeyword(msg: string, i: nat)
    requires KeywordAt(msg, i)
    requires forall j :: 0 <= j < i ==> !KeywordAt(msg, j)
    ensures DetectLevel(msg) == KeywordLevel(Upper(msg[i..WordEnd(msg, i)]))
    ensures DetectLevel(msg) != Unknown
  {
    FindFromIsLeftmost(msg, 0);
    var w := FindFrom(msg, 0).value;
    var j :| 0 <= j < |msg| && KeywordAt(msg, j) && (forall k :: 0 <= k < j ==> !KeywordAt(msg, k))
      && w == msg[j..WordEnd(msg, j)];
    assert j == i;
    KeywordTable(Upper(w));
  }

  /** A bracketed tag is found. */
  lemma DetectBracketed(s: string)
    requires s == "[ERROR] disk full"
    ensures DetectLevel(s) == Error
  {
    WordEndAt(s, 1, 6);
    assert s[1..6] == "ERROR";
    assert Upper(s[1..6]) == "ERROR";
    KeywordTable("ERROR");
    DetectLeftmostKeyword(s, 1);
  }

  /** In `key=value` form the key is skipped and the long spelling is read. */
  lemma DetectKeyValue(s: string)
    requires s == "level=warning msg"
    ensures DetectLevel(s) == Warn
  {
    WordEndAt(s, 0, 5);
    assert s[0..5] == "level";
    assert Upper(s[0..5]) == "LEVEL";
    WordEndAt(s, 6, 13);
    assert s[6..13] == "warning";
    assert Upper(s[6..13]) == "WARNING";
    forall j | 0 <= j < 6 ensures !KeywordAt(s, j) {
      if WordStart(s, j) {
        assert j == 0;
      }
    }
    KeywordTable("WARNING");
    DetectLeftmostKeyword(s, 6);
  }

  /** A word that merely starts with a keyword is not a level. */
  lemma DetectLongerWord(s: string)
    requires s == "ERRORS only"
    ensures DetectLevel(s) == Unknown
  {
    WordEndAt(s, 0, 6);
    assert s[0..6] == "ERRORS";
    assert Upper(s[0..6]) == "ERRORS";
    WordEndAt(s, 7, 11);
    assert s[7..11] == "only";
    assert Upper(s[7..11]) == "ONLY";
    forall i ensures !KeywordAt(s, i) {
      if WordStart(s, i) {
        assert i == 0 || i == 7;
      }
    }
    DetectUnknownIff(s);
  }
}
