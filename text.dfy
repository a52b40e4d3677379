/** String helpers shared by the model. A Dafny `string` stands for the bytes
    of a Go string, one character per byte, so positions are byte offsets. */
module Text {

  /** `sub` occurs in `s` starting at offset `i`. */
  ghost predicate OccursAt(s: string, sub: string, i: int)
  {
    0 <= i && i + |sub| <= |s| && s[i..i + |sub|] == sub
  }

  /** Go's `strings.Contains`: byte-wise, case-sensitive substring test. */
  function Contains(s: string, sub: string): (r: bool)
    ensures r <==> exists i :: OccursAt(s, sub, i)
    decreases |s|
  {
    if |sub| > |s| then
      assert forall i :: !OccursAt(s, sub, i);
      false
    else if s[..|sub|] == sub then
      assert OccursAt(s, sub, 0);
      true
    else
      var r := Contains(s[1..], sub);
      assert forall i :: OccursAt(s[1..], sub, i) <==> OccursAt(s, sub, i + 1) by {
        forall i ensures OccursAt(s[1..], sub, i) <==> OccursAt(s, sub, i + 1) {
          if 0 <= i && i + |sub| <= |s| - 1 {
            assert s[1..][i..i + |sub|] == s[i + 1..i + 1 + |sub|];
          }
        }
      }
      assert !OccursAt(s, sub, 0);
      assert forall i :: OccursAt(s, sub, i) ==> i == 0 || OccursAt(s[1..], sub, i - 1);
      r
  }

  /** Go's `strings.Join`. */
  function Join(parts: seq<string>, sep: string): (r: string)
    ensures parts == [] ==> r == ""
    ensures |parts| == 1 ==> r == parts[0]
    decreases |parts|
  {
    if parts == [] then ""
    else if |parts| == 1 then parts[0]
    else parts[0] + sep + Join(parts[1..], sep)
  }

  /** Joining two non-empty lists of parts is joining each and putting one
      separator between the two results. */
  lemma {:induction false} JoinConcat(ps: seq<string>, qs: seq<string>, sep: string)
    requires ps != [] && qs != []
    ensures Join(ps + qs, sep) == Join(ps, sep) + sep + Join(qs, sep)
    decreases |ps|
  {
    assert (ps + qs)[1..] == ps[1..] + qs;
    if |ps| > 1 {
      JoinConcat(ps[1..], qs, sep);
    }
  }

  /** One more part adds the separator and that part at the end. */
  lemma JoinSnoc(ps: seq<string>, p: string, sep: string)
    requires ps != []
    ensures Join(ps + [p], sep) == Join(ps, sep) + sep + p
  {
    JoinConcat(ps, [p], sep);
  }

  /** RE2's `\w` class (and hence its `\b`): ASCII letters, digits and underscore. */
  predicate IsWordChar(c: char)
  {
    'a' <= c <= 'z' || 'A' <= c <= 'Z' || '0' <= c <= '9' || c == '_'
  }

  /** ASCII upper-casing of one byte; every other byte is kept. */
  function UpperChar(c: char): (u: char)
    ensures IsWordChar(c) <==> IsWordChar(u)
    ensures 'A' <= u <= 'Z' ==> (c == u || c == u + ('a' - 'A'))
  {
    if 'a' <= c <= 'z' then c - ('a' - 'A') else c
  }

  /** `strings.ToUpper` restricted to ASCII (the model only upper-cases ASCII words). */
  function Upper(s: string): (r: string)
    ensures |r| == |s|
    ensures forall i :: 0 <= i < |s| ==> r[i] == UpperChar(s[i])
  {
    seq(|s|, i requires 0 <= i < |s| => UpperChar(s[i]))
  }

  /** All characters of `w` are `\w` characters. */
  predicate AllWord(w: string)
  {
    forall i :: 0 <= i < |w| ==> IsWordChar(w[i])
  }

  /** End of the maximal run of word bytes starting at `i`. */
  function WordEnd(s: string, i: nat): (j: nat)
    requires i <= |s|
    ensures i <= j <= |s|
    ensures forall k :: i <= k < j ==> IsWordChar(s[k])
    ensures j == |s| || !IsWordChar(s[j])
    decreases |s| - i
  {
    if i < |s| && IsWordChar(s[i]) then WordEnd(s, i + 1) else i
  }

  /** A run of word bytes closed by a non-word byte or the end is the maximal
      word starting there. */
  lemma {:induction false} WordEndAt(s: string, i: nat, j: nat)
    requires i <= j <= |s|
    requires forall k :: i <= k < j ==> IsWordChar(s[k])
    requires j == |s| || !IsWordChar(s[j])
    ensures WordEnd(s, i) == j
    decreases j - i
  {
    if i < j {
      WordEndAt(s, i + 1, j);
    }
  }
}
