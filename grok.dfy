/** Grok-style parsing: a pattern such as `%{IP:client} %{WORD:method}` is
    compiled into a regular expression by substituting each `%{NAME}` or
    `%{NAME:field}` token with a built-in sub-expression, and the field names
    are kept, one slot per token, to label the regex's submatches. */
module Grok {
  import opened Wrappers
  import opened Text
  import opened Entries

  /** The built-in sub-expressions, by name. */
  const BuiltinPatterns: map<string, string> := map[
    "IP" := @"(?:\d{1,3}\.){3}\d{1,3}",
    "IPV6" := @"[0-9A-Fa-f:]+",
    "WORD" := @"\w+",
    "INT" := @"[+-]?\d+",
    "NUMBER" := @"[+-]?(?:\d+\.?\d*|\.\d+)",
    "NOTSPACE" := @"\S+",
    "DATA" := @".*?",
    "GREEDYDATA" := @".*",
    "TIMESTAMP" := @"\d{4}-\d{2}-\d{2}[T ]\d{2}:\d{2}:\d{2}(?:\.\d+)?(?:Z|[+-]\d{2}:?\d{2})?",
    "LOGLEVEL" := @"(?:DEBUG|INFO|WARN(?:ING)?|ERROR|ERR|FATAL|PANIC|CRITICAL|TRACE)",
    "PATH" := @"(?:/[\w.]+)+",
    "URI" := @"\S+://\S+",
    "UUID" := @"[0-9a-fA-F]{8}-[0-9a-fA-F]{4}-[0-9a-fA-F]{4}-[0-9a-fA-F]{4}-[0-9a-fA-F]{12}",
    "MAC" := @"(?:[0-9A-Fa-f]{2}:){5}[0-9A-Fa-f]{2}",
    "HTTPMETHOD" := @"(?:GET|POST|PUT|DELETE|PATCH|HEAD|OPTIONS|CONNECT|TRACE)",
    "STATUSCODE" := @"\d{3}",
    "QS" := @"""[^""]*"""
  ]

  // ---------------------------------------------------------------------------
  // Tokens.

  /** A `%{name}` or `%{name:field}` token; `field` is empty when absent. */
  datatype Token = Token(name: string, field: string)

  /** Both parts are runs of `\w` characters, the name a non-empty one. */
  predicate ValidToken(t: Token)
  {
    t.name != [] && AllWord(t.name) && AllWord(t.field)
  }

  /** How a token is spelled in a pattern. */
  function TokenText(t: Token): string
  {
    "%{" + t.name + (if t.field == [] then "" else ":" + t.field) + "}"
  }

  /** The token regex `%\{(\w+)(?::(\w+))?\}` tried at offset `i`. As `\w`
      excludes `:` and `}`, the name is the maximal word run after `%{`, the
      optional field the maximal word run after a `:`, and a `}` must follow. */
  function TokenAt(s: string, i: nat): (r: Option<Token>)
    requires i <= |s|
    ensures r.Some? ==> ValidToken(r.value) && i + |TokenText(r.value)| <= |s|
    ensures r.Some? ==> s[i..i + |TokenText(r.value)|] == TokenText(r.value)
  {
    if i + 2 <= |s| && s[i] == '%' && s[i + 1] == '{' then
      var j := WordEnd(s, i + 2);
      if j == i + 2 || j == |s| then None
      else if s[j] == '}' then
        SpelledAnonymous(s, i, j);
        Some(Token(s[i + 2..j], ""))
      else if s[j] == ':' then
        var k := WordEnd(s, j + 1);
        if k == j + 1 || k == |s| || s[k] != '}' then None
        else
          SpelledNamed(s, i, j, k);
          Some(Token(s[i + 2..j], s[j + 1..k]))
      else None
    else None
  }

  /** `%{`, a name and `}` read back as an anonymous token's spelling. */
  lemma SpelledAnonymous(s: string, i: nat, j: nat)
    requires i + 2 < j < |s| && s[i] == '%' && s[i + 1] == '{' && s[j] == '}'
    requires forall x :: i + 2 <= x < j ==> IsWordChar(s[x])
    ensures ValidToken(Token(s[i + 2..j], ""))
    ensures s[i..j + 1] == TokenText(Token(s[i + 2..j], ""))
  {
    var name := s[i + 2..j];
    var txt := TokenText(Token(name, ""));
    assert txt == ['%', '{'] + name + ['}'];
    assert |txt| == j + 1 - i;
    forall x | 0 <= x < j + 1 - i
      ensures s[i..j + 1][x] == txt[x]
    {
      if 2 <= x < j - i {
        assert txt[x] == name[x - 2];
      }
    }
    assert forall x :: 0 <= x < |name| ==> name[x] == s[i + 2 + x];
  }

  /** `%{`, a name, `:`, a field and `}` read back as a named token's
      spelling. */
  lemma SpelledNamed(s: string, i: nat, j: nat, k: nat)
    requires i + 2 < j && j + 1 < k < |s| && s[i] == '%' && s[i + 1] == '{' && s[j] == ':' && s[k] == '}'
    requires forall x :: i + 2 <= x < j ==> IsWordChar(s[x])
    requires forall x :: j + 1 <= x < k ==> IsWordChar(s[x])
    ensures ValidToken(Token(s[i + 2..j], s[j + 1..k]))
    ensures s[i..k + 1] == TokenText(Token(s[i + 2..j], s[j + 1..k]))
  {
    var name, field := s[i + 2..j], s[j + 1..k];
    var txt := TokenText(Token(name, field));
    assert txt == ['%', '{'] + name + [':'] + field + ['}'];
    assert |txt| == k + 1 - i;
    forall x | 0 <= x < k + 1 - i
      ensures s[i..k + 1][x] == txt[x]
    {
      if 2 <= x < j - i {
        assert txt[x] == name[x - 2];
      } else if j - i < x < k - i {
        assert txt[x] == field[x - (j - i) - 1];
      }
    }
    assert forall x :: 0 <= x < |name| ==> name[x] == s[i + 2 + x];
    assert forall x :: 0 <= x < |field| ==> field[x] == s[j + 1 + x];
  }

  /** A pattern cut into literal bytes and tokens. */
  datatype Piece = Lit(c: char) | Tok(t: Token)

  /** `FindAllStringSubmatch` with the token regex from offset `i`: a token
      wherever one starts, scanning on past it; any other byte is literal. */
  function ScanFrom(s: string, i: nat): seq<Piece>
    requires i <= |s|
    decreases |s| - i
  {
    if i == |s| then []
    else
      match TokenAt(s, i)
      case Some(t) => [Tok(t)] + ScanFrom(s, i + |TokenText(t)|)
      case None => [Lit(s[i])] + ScanFrom(s, i + 1)
  }

  function Scan(s: string): seq<Piece>
  {
    ScanFrom(s, 0)
  }

  /** The text a sequence of pieces spells. */
  function Render(ps: seq<Piece>): string
    decreases |ps|
  {
    if ps == [] then ""
    else PieceText(ps[0]) + Render(ps[1..])
  }

  /** The tokens among the pieces, in order. */
  function Tokens(ps: seq<Piece>): (ts: seq<Token>)
    ensures |ts| <= |ps|
    decreases |ps|
  {
    if ps == [] then []
    else if ps[0].Tok? then [ps[0].t] + Tokens(ps[1..])
    else Tokens(ps[1..])
  }

  /** The field slot of each token: its field name, or "" when anonymous. */
  function Slots(ts: seq<Token>): (names: seq<string>)
    ensures |names| == |ts|
    ensures forall i :: 0 <= i < |ts| ==> names[i] == ts[i].field
  {
    seq(|ts|, i requires 0 <= i < |ts| => ts[i].field)
  }

  /** Scanning loses nothing: the pieces spell the pattern back. */
  lemma {:induction false} ScanRoundTrip(s: string)
    ensures Render(Scan(s)) == s
  {
    ScanFromRenders(s, 0);
  }

  lemma {:induction false} ScanFromRenders(s: string, i: nat)
    requires i <= |s|
    ensures Render(ScanFrom(s, i)) == s[i..]
    decreases |s| - i
  {
    if i < |s| {
      match TokenAt(s, i)
      case Some(t) =>
        var n := |TokenText(t)|;
        ScanFromRenders(s, i + n);
        RenderStep(s, i, Tok(t), ScanFrom(s, i + n));
      case None =>
        ScanFromRenders(s, i + 1);
        RenderStep(s, i, Lit(s[i]), ScanFrom(s, i + 1));
    }
  }

  /** The text a single piece spells. */
  function PieceText(p: Piece): string
  {
    match p
    case Lit(c) => [c]
    case Tok(t) => TokenText(t)
  }

  /** A piece spelled at `i`, followed by pieces spelling the rest, spells
      the text from `i`. */
  lemma RenderStep(s: string, i: nat, p: Piece, ps: seq<Piece>)
    requires i + |PieceText(p)| <= |s| && s[i..i + |PieceText(p)|] == PieceText(p)
    requires Render(ps) == s[i + |PieceText(p)|..]
    ensures Render([p] + ps) == s[i..]
  {
    assert ([p] + ps)[1..] == ps;
    assert s[i..] == s[i..i + |PieceText(p)|] + s[i + |PieceText(p)|..];
  }

  /** Every spelled token is recognised where it starts: together with the
      ensures of `TokenAt`, a token is found at `i` exactly when the text of a
      valid token starts there. */
  lemma TokenAtFindsText(s: string, i: nat, t: Token)
    requires ValidToken(t)
    requires i + |TokenText(t)| <= |s| && s[i..i + |TokenText(t)|] == TokenText(t)
    ensures TokenAt(s, i) == Some(t)
  {
    SpelledBytes(s, i, t);
    if t.field == [] {
      AnonymousAt(s, i, t);
    } else {
      NamedAt(s, i, t);
    }
  }

  /** A token's spelling at `i`, byte by byte. */
  lemma SpelledBytes(s: string, i: nat, t: Token)
    requires ValidToken(t)
    requires i + |TokenText(t)| <= |s| && s[i..i + |TokenText(t)|] == TokenText(t)
    ensures var n := |t.name|;
      && i + 2 + n < |s| && s[i] == '%' && s[i + 1] == '{'
      && (forall m :: 0 <= m < n ==> s[i + 2 + m] == t.name[m])
      && (t.field == [] ==> s[i + 2 + n] == '}')
      && (t.field != [] ==>
            i + 3 + n + |t.field| < |s| && s[i + 2 + n] == ':' && s[i + 3 + n + |t.field|] == '}'
            && forall m :: 0 <= m < |t.field| ==> s[i + 3 + n + m] == t.field[m])
  {
    var txt := TokenText(t);
    var w := s[i..i + |txt|];
    TokenTextChars(t);
    var n := |t.name|;
    assert s[i] == w[0] && s[i + 1] == w[1] && s[i + 2 + n] == w[2 + n];
    forall m | 0 <= m < n
      ensures s[i + 2 + m] == t.name[m]
    {
      assert s[i + 2 + m] == w[2 + m];
    }
    if t.field != [] {
      var f := |t.field|;
      forall m | 0 <= m < f
        ensures s[i + 3 + n + m] == t.field[m]
      {
        assert s[i + 3 + n + m] == w[3 + n + m];
      }
      assert s[i + 3 + n + f] == w[3 + n + f];
    }
  }

  /** `%{name}` at `i`, spelled out byte by byte. */
  lemma AnonymousAt(s: string, i: nat, t: Token)
    requires ValidToken(t) && t.field == []
    requires i + 2 + |t.name| < |s| && s[i] == '%' && s[i + 1] == '{'
    requires forall m :: 0 <= m < |t.name| ==> s[i + 2 + m] == t.name[m]
    requires s[i + 2 + |t.name|] == '}'
    ensures TokenAt(s, i) == Some(t)
  {
    RunAt(s, i + 2, t.name);
  }

  /** `%{name:field}` at `i`, spelled out byte by byte. */
  lemma NamedAt(s: string, i: nat, t: Token)
    requires ValidToken(t) && t.field != []
    requires i + 3 + |t.name| + |t.field| < |s| && s[i] == '%' && s[i + 1] == '{'
    requires forall m :: 0 <= m < |t.name| ==> s[i + 2 + m] == t.name[m]
    requires s[i + 2 + |t.name|] == ':'
    requires forall m :: 0 <= m < |t.field| ==> s[i + 3 + |t.name| + m] == t.field[m]
    requires s[i + 3 + |t.name| + |t.field|] == '}'
    ensures TokenAt(s, i) == Some(t)
  {
    RunAt(s, i + 2, t.name);
    RunAt(s, i + 3 + |t.name|, t.field);
  }

  /** A word spelled at `i` and followed by a non-word byte is the maximal
      word run there. */
  lemma RunAt(s: string, i: nat, w: string)
    requires AllWord(w) && i + |w| < |s| && !IsWordChar(s[i + |w|])
    requires forall m :: 0 <= m < |w| ==> s[i + m] == w[m]
    ensures WordEnd(s, i) == i + |w| && s[i..i + |w|] == w
  {
    forall k | i <= k < i + |w|
      ensures IsWordChar(s[k])
    {
      assert s[k] == w[k - i];
    }
    WordEndAt(s, i, i + |w|);
  }

  /** Where each part of a token sits in its spelling. */
  lemma TokenTextChars(t: Token)
    ensures var txt, n := TokenText(t), |t.name|;
      && |txt| == 3 + n + (if t.field == [] then 0 else 1 + |t.field|)
      && txt[0] == '%' && txt[1] == '{'
      && (forall m :: 0 <= m < n ==> txt[2 + m] == t.name[m])
      && (t.field == [] ==> txt[2 + n] == '}')
      && (t.field != [] ==>
            txt[2 + n] == ':' && txt[3 + n + |t.field|] == '}'
            && forall m :: 0 <= m < |t.field| ==> txt[3 + n + m] == t.field[m])
  {
  }

  // ---------------------------------------------------------------------------
  // Compilation.

  /** What a token becomes: a capturing group when it names a field, a
      non-capturing one otherwise. */
  function Replacement(t: Token, builtin: string): (r: string)
    ensures |r| >= 2 && r[0] == '(' && r[|r| - 1] == ')'
  {
    if t.field != [] then "(" + builtin + ")" else "(?:" + builtin + ")"
  }

  /** `compileGrokPattern` over the scanned pieces, with the pattern library
      `lib`: literal bytes are copied as they are, tokens are replaced in
      order, and the first token whose name is not in the library stops
      compilation. */
  function CompilePieces(ps: seq<Piece>, lib: map<string, string>): Result<(string, seq<string>), string>
    decreases |ps|
  {
    if ps == [] then Ok(("", []))
    else
      var rest := CompilePieces(ps[1..], lib);
      match ps[0]
      case Lit(c) =>
        if rest.Err? then rest else Ok(([c] + rest.value.0, rest.value.1))
      case Tok(t) =>
        if t.name !in lib then
          Err("unknown grok pattern: " + t.name)
        else if rest.Err? then
          rest
        else
          Ok((Replacement(t, lib[t.name]) + rest.value.0, [t.field] + rest.value.1))
  }

  /** Compilation succeeds iff every token names a pattern of the library;
      it then yields one slot per token, and otherwise the error names the
      first unknown pattern. */
  lemma CompilePiecesSpec(ps: seq<Piece>, lib: map<string, string>)
    ensures var r := CompilePieces(ps, lib);
      && (r.Ok? <==> forall i :: 0 <= i < |Tokens(ps)| ==> Tokens(ps)[i].name in lib)
      && (r.Ok? ==> r.value.1 == Slots(Tokens(ps)))
      && (r.Err? ==>
            && FirstUnknownIndex(Tokens(ps), lib) < |Tokens(ps)|
            && r.error == "unknown grok pattern: " + Tokens(ps)[FirstUnknownIndex(Tokens(ps), lib)].name)
  {
    CompileOk(ps, lib);
    CompileErr(ps, lib);
  }

  /** Compilation succeeds iff no token is unknown, with one slot per token. */
  lemma {:induction false} CompileOk(ps: seq<Piece>, lib: map<string, string>)
    ensures CompilePieces(ps, lib).Ok? <==> FirstUnknownIndex(Tokens(ps), lib) == |Tokens(ps)|
    ensures CompilePieces(ps, lib).Ok? ==> CompilePieces(ps, lib).value.1 == Slots(Tokens(ps))
    decreases |ps|
  {
    if ps != [] {
      CompileOk(ps[1..], lib);
      match ps[0]
      case Lit(c) =>
        assert Tokens(ps) == Tokens(ps[1..]);
      case Tok(t) =>
        TokensCons(t, ps, lib);
    }
  }

  /** A failed compilation names the first unknown token. */
  lemma {:induction false} CompileErr(ps: seq<Piece>, lib: map<string, string>)
    ensures CompilePieces(ps, lib).Err? ==>
      && FirstUnknownIndex(Tokens(ps), lib) < |Tokens(ps)|
      && CompilePieces(ps, lib).error == "unknown grok pattern: " + Tokens(ps)[FirstUnknownIndex(Tokens(ps), lib)].name
    decreases |ps|
  {
    if ps != [] {
      CompileErr(ps[1..], lib);
      match ps[0]
      case Lit(c) =>
        assert Tokens(ps) == Tokens(ps[1..]);
      case Tok(t) =>
        TokensCons(t, ps, lib);
    }
  }

  /** The tokens of pieces that start with a token, and where the first
      unknown one sits among them. */
  lemma TokensCons(t: Token, ps: seq<Piece>, lib: map<string, string>)
    requires ps != [] && ps[0] == Tok(t)
    ensures Tokens(ps) == [t] + Tokens(ps[1..])
    ensures t.name !in lib ==> FirstUnknownIndex(Tokens(ps), lib) == 0
    ensures t.name in lib ==> FirstUnknownIndex(Tokens(ps), lib) == 1 + FirstUnknownIndex(Tokens(ps[1..]), lib)
    ensures forall i :: 0 <= i < |Tokens(ps[1..])| ==> Tokens(ps)[i + 1] == Tokens(ps[1..])[i]
  {
  }

  /** Token `i` is the first whose name is not in the library. */
  predicate FirstUnknown(ts: seq<Token>, lib: map<string, string>, i: int)
  {
    0 <= i < |ts| && ts[i].name !in lib
    && forall j :: 0 <= j < i ==> ts[j].name in lib
  }

  /** The position of the first token whose name is not in the library, or
      the number of tokens when every name is. */
  function FirstUnknownIndex(ts: seq<Token>, lib: map<string, string>): (i: nat)
    ensures i <= |ts|
    ensures i < |ts| ==> FirstUnknown(ts, lib, i)
    ensures i == |ts| ==> forall j :: 0 <= j < |ts| ==> ts[j].name in lib
    decreases |ts|
  {
    if ts == [] then 0
    else if ts[0].name !in lib then 0
    else 1 + FirstUnknownIndex(ts[1..], lib)
  }

  /** `compileGrokPattern`: the regex text and the field slots, or the error
      naming the first unknown pattern, against the built-in patterns. */
  function Compile(pattern: string): Result<(string, seq<string>), string>
  {
    CompilePieces(Scan(pattern), BuiltinPatterns)
  }

  /** The regex text, piece by piece: a literal byte stays itself and a token
      becomes its replacement. */
  function Expand(ps: seq<Piece>, lib: map<string, string>): string
    requires forall i :: 0 <= i < |Tokens(ps)| ==> Tokens(ps)[i].name in lib
    decreases |ps|
  {
    if ps == [] then ""
    else
      assert Tokens(ps[1..]) == if ps[0].Tok? then Tokens(ps)[1..] else Tokens(ps);
      match ps[0]
      case Lit(c) => [c] + Expand(ps[1..], lib)
      case Tok(t) =>
        assert Tokens(ps)[0] == t;
        Replacement(t, lib[t.name]) + Expand(ps[1..], lib)
  }

  /** Compilation substitutes: the regex is the pattern with each token
      replaced in place by its group, everything else copied verbatim. */
  lemma {:induction false} CompileExpands(ps: seq<Piece>, lib: map<string, string>)
    requires forall i :: 0 <= i < |Tokens(ps)| ==> Tokens(ps)[i].name in lib
    ensures CompilePieces(ps, lib) == Ok((Expand(ps, lib), Slots(Tokens(ps))))
    decreases |ps|
  {
    CompilePiecesSpec(ps, lib);
    if ps != [] {
      assert Tokens(ps[1..]) == if ps[0].Tok? then Tokens(ps)[1..] else Tokens(ps);
      CompileExpands(ps[1..], lib);
    }
  }

  /** Without tokens the pieces expand to the text they spell. */
  lemma {:induction false} ExpandLiteral(ps: seq<Piece>, lib: map<string, string>)
    requires Tokens(ps) == []
    ensures Expand(ps, lib) == Render(ps)
    decreases |ps|
  {
    if ps != [] {
      assert !ps[0].Tok?;
      ExpandLiteral(ps[1..], lib);
    }
  }

  /** A pattern with no tokens compiles to itself with no field slots. */
  lemma NoTokensCompileToItself(pattern: string)
    requires Tokens(Scan(pattern)) == []
    ensures Compile(pattern) == Ok((pattern, []))
  {
    CompileExpands(Scan(pattern), BuiltinPatterns);
    ExpandLiteral(Scan(pattern), BuiltinPatterns);
    ScanRoundTrip(pattern);
  }

  // ---------------------------------------------------------------------------
  // The parser.

  /** The regex engine's `FindStringSubmatch`: on a match, the whole match
      followed by one string per capturing group. */
  type Submatcher = string -> Option<seq<string>>

  /** The field map after storing submatch `i + 1` under each of the first `n`
      slot names that is non-empty and has such a submatch. */
  function Assign(m: map<string, string>, names: seq<string>, matches: seq<string>, n: nat): map<string, string>
    requires n <= |names|
  {
    if n == 0 then m
    else
      var m' := Assign(m, names, matches, n - 1);
      if n < |matches| && names[n - 1] != "" then m'[names[n - 1] := matches[n]] else m'
  }

  /** The keys `Assign` writes. */
  function Written(names: seq<string>, matches: seq<string>, n: nat): set<string>
    requires n <= |names|
  {
    set i | 0 <= i < n && i + 1 < |matches| && names[i] != "" :: names[i]
  }

  /** Keys with no slot keep their value, and each written key holds the
      submatch of the last slot bearing its name. */
  lemma {:induction false} AssignSpec(m: map<string, string>, names: seq<string>, matches: seq<string>, n: nat)
    requires n <= |names|
    ensures var r := Assign(m, names, matches, n);
      && r.Keys == m.Keys + Written(names, matches, n)
      && (forall k :: k in m && k !in Written(names, matches, n) ==> r[k] == m[k])
      && (forall i :: 0 <= i < n && i + 1 < |matches| && names[i] != ""
            && (forall j :: i < j < n && j + 1 < |matches| ==> names[j] != names[i])
            ==> r[names[i]] == matches[i + 1])
    decreases n
  {
    if n > 0 {
      AssignSpec(m, names, matches, n - 1);
      var w := Written(names, matches, n - 1);
      if n < |matches| && names[n - 1] != "" {
        assert Written(names, matches, n) == w + {names[n - 1]};
      } else {
        assert Written(names, matches, n) == w;
      }
    }
  }

  /** The field map a parse starts from: the entry's own, or a new one. */
  function BaseFields(e: LogEntry): map<string, string>
  {
    if e.fields.Some? then e.fields.value else map[]
  }

  class GrokParser {
    const pattern: string
    const regex: Submatcher
    const fieldNames: seq<string>

    constructor (pattern: string, regex: Submatcher, fieldNames: seq<string>)
      ensures this.pattern == pattern && this.regex == regex && this.fieldNames == fieldNames
    {
      this.pattern := pattern;
      this.regex := regex;
      this.fieldNames := fieldNames;
    }

    /** `Pattern`: the pattern the parser was built from. */
    function Pattern(): string
    {
      pattern
    }

    /** `Parse`: on no match, report false and leave the entry alone; on a
        match, create the field map if it is nil and store the submatch at
        slot position `i + 1` under each non-empty slot name `i`. */
    method Parse(e: LogEntry) returns (ok: bool, e': LogEntry)
      ensures (ok, e') == ParseBySlot(regex, fieldNames, e)
    {
      var matches := regex(e.message);
      if matches.None? {
        return false, e;
      }
      var ms := matches.value;
      var fields := BaseFields(e);
      var i := 0;
      while i < |fieldNames|
        invariant 0 <= i <= |fieldNames|
        invariant fields == Assign(BaseFields(e), fieldNames, ms, i)
      {
        var name := fieldNames[i];
        if i + 1 < |ms| && name != "" {
          fields := fields[name := ms[i + 1]];
        }
        i := i + 1;
      }
      return true, e.(fields := Some(fields));
    }

    /** `Parse` with the numbering corrected: the loop counts the named slots
        it has passed, and named slot `i` reads the submatch of its own
        capturing group. */
    method ParseGrouped(e: LogEntry) returns (ok: bool, e': LogEntry)
      ensures (ok, e') == ParseByGroup(regex, fieldNames, e)
    {
      var matches := regex(e.message);
      if matches.None? {
        return false, e;
      }
      var ms := matches.value;
      ghost var gs := GroupNames(fieldNames);
      var fields := BaseFields(e);
      var i, g := 0, 0;
      while i < |fieldNames|
        invariant 0 <= i <= |fieldNames|
        invariant g == NamedBefore(fieldNames, i) <= |gs|
        invariant fields == Assign(BaseFields(e), gs, ms, g)
      {
        NamedBeforeStep(fieldNames, i);
        var name := fieldNames[i];
        if name != "" {
          GroupOfSlot(fieldNames, i);
          if g + 1 < |ms| {
            fields := fields[name := ms[g + 1]];
          }
          g := g + 1;
        }
        i := i + 1;
      }
      assert fieldNames[..i] == fieldNames;
      return true, e.(fields := Some(fields));
    }
  }

  /** `Parse` as written: fields are numbered by slot, so slot `i` reads
      submatch `i + 1`. Only the field map can change, and only on a match. */
  function ParseBySlot(regex: Submatcher, fieldNames: seq<string>, e: LogEntry): (r: (bool, LogEntry))
    ensures regex(e.message).None? ==> r == (false, e)
    ensures regex(e.message).Some? ==> r.0 && r.1.fields.Some? && r.1 == e.(fields := r.1.fields)
  {
    match regex(e.message)
    case None => (false, e)
    case Some(ms) => (true, e.(fields := Some(Assign(BaseFields(e), fieldNames, ms, |fieldNames|))))
  }

  /** On a match, keys no slot writes keep their value (a nil map becomes an
      empty one), and each written key holds the submatch at the position of
      the last slot bearing its name. */
  lemma ParseBySlotFields(regex: Submatcher, fieldNames: seq<string>, e: LogEntry)
    requires regex(e.message).Some?
    ensures var ms, fields := regex(e.message).value, ParseBySlot(regex, fieldNames, e).1.fields.value;
      && fields.Keys == BaseFields(e).Keys + Written(fieldNames, ms, |fieldNames|)
      && (forall k :: k in BaseFields(e) && k !in Written(fieldNames, ms, |fieldNames|) ==> fields[k] == BaseFields(e)[k])
      && (forall i :: 0 <= i < |fieldNames| && i + 1 < |ms| && fieldNames[i] != ""
            && (forall j :: i < j < |fieldNames| && j + 1 < |ms| ==> fieldNames[j] != fieldNames[i])
            ==> fields[fieldNames[i]] == ms[i + 1])
  {
    AssignSpec(BaseFields(e), fieldNames, regex(e.message).value, |fieldNames|);
  }

  /** `NewGrokParser`: compile the pattern, then the regex text (with the
      engine's `compileRegex`), wrapping the engine's error. */
  method NewGrokParser(pattern: string, compileRegex: string -> Result<Submatcher, string>)
    returns (r: Result<GrokParser, string>)
    ensures Compile(pattern).Err? ==> r == Err(Compile(pattern).error)
    ensures Compile(pattern).Ok? ==> var (regexStr, names) := Compile(pattern).value;
      && (compileRegex(regexStr).Err? ==> r == Err("compiled grok regex invalid: " + compileRegex(regexStr).error + " (regex: " + regexStr + ")"))
      && (compileRegex(regexStr).Ok? ==>
            r.Ok? && r.value.Pattern() == pattern
            && r.value.regex == compileRegex(regexStr).value && r.value.fieldNames == names)
  {
    var compiled := Compile(pattern);
    if compiled.Err? {
      return Err(compiled.error);
    }
    var (regexStr, names) := compiled.value;
    var re := compileRegex(regexStr);
    if re.Err? {
      return Err("compiled grok regex invalid: " + re.error + " (regex: " + regexStr + ")");
    }
    var g := new GrokParser(pattern, re.value, names);
    return Ok(g);
  }

  // ---------------------------------------------------------------------------
  // Submatch numbering.

  /** The non-empty slot names, in order. When the pattern's literal text
      holds no capturing group, these are the regex's capturing groups,
      numbered from 1 in this order. */
  function GroupNames(names: seq<string>): (gs: seq<string>)
    ensures |gs| <= |names|
    ensures forall k :: 0 <= k < |gs| ==> gs[k] != ""
    decreases |names|
  {
    if names == [] then []
    else if names[0] != "" then [names[0]] + GroupNames(names[1..])
    else GroupNames(names[1..])
  }

  /** How many named slots come before slot `i`: under the same condition,
      the capturing group of a named slot `i` is number
      `NamedBefore(names, i) + 1`. */
  function NamedBefore(names: seq<string>, i: nat): nat
    requires i <= |names|
  {
    |GroupNames(names[..i])|
  }

  /** Passing one more slot counts it if it is named. */
  lemma NamedBeforeStep(names: seq<string>, i: nat)
    requires i < |names|
    ensures NamedBefore(names, i + 1) == NamedBefore(names, i) + (if names[i] != "" then 1 else 0)
  {
    assert names[..i + 1] == names[..i] + [names[i]];
    GroupNamesSnoc(names[..i], names[i]);
  }

  /** Appending a slot appends its group, if it has one. */
  lemma {:induction false} GroupNamesSnoc(names: seq<string>, x: string)
    ensures GroupNames(names + [x]) == GroupNames(names) + (if x != "" then [x] else [])
    decreases |names|
  {
    if names != [] {
      assert (names + [x])[1..] == names[1..] + [x];
      GroupNamesSnoc(names[1..], x);
    }
  }

  /** Group numbering: named slot `i` is entry `NamedBefore(names, i)` of
      `GroupNames(names)`. */
  lemma {:induction false} GroupOfSlot(names: seq<string>, i: nat)
    requires i < |names| && names[i] != ""
    ensures NamedBefore(names, i) < |GroupNames(names)|
    ensures GroupNames(names)[NamedBefore(names, i)] == names[i]
    decreases |names|
  {
    assert names[..i + 1][..i] == names[..i];
    if i == 0 {
      assert names[..0] == [];
    } else {
      assert names[..i][1..] == names[1..][..i - 1];
      GroupOfSlot(names[1..], i - 1);
    }
  }

  /** The evidently intended parse: each named field takes the submatch of
      its own capturing group, which anonymous tokens do not create. */
  function ParseByGroup(regex: Submatcher, fieldNames: seq<string>, e: LogEntry): (r: (bool, LogEntry))
    ensures regex(e.message).None? ==> r == (false, e)
    ensures regex(e.message).Some? ==> r.0 && r.1.fields.Some?
  {
    match regex(e.message)
    case None => (false, e)
    case Some(ms) =>
      var gs := GroupNames(fieldNames);
      (true, e.(fields := Some(Assign(BaseFields(e), gs, ms, |gs|))))
  }

  /** With one submatch per named field, as the engine returns for a compiled
      pattern whose literal text has no groups of its own, every named field
      whose name is not reused later gets its own group's text. */
  lemma ParseByGroupStoresOwnGroup(regex: Submatcher, fieldNames: seq<string>, e: LogEntry, i: nat)
    requires regex(e.message).Some? && |regex(e.message).value| == 1 + |GroupNames(fieldNames)|
    requires i < |fieldNames| && fieldNames[i] != ""
    requires forall j :: i < j < |fieldNames| ==> fieldNames[j] != fieldNames[i]
    ensures var fields := ParseByGroup(regex, fieldNames, e).1.fields.value;
      && NamedBefore(fieldNames, i) + 1 < |regex(e.message).value|
      && fieldNames[i] in fields && fields[fieldNames[i]] == regex(e.message).value[NamedBefore(fieldNames, i) + 1]
  {
    var ms := regex(e.message).value;
    var gs := GroupNames(fieldNames);
    var g := NamedBefore(fieldNames, i);
    GroupOfSlot(fieldNames, i);
    forall j | g < j < |gs|
      ensures gs[j] != gs[g]
    {
      LaterGroup(fieldNames, i, j);
    }
    AssignSpec(BaseFields(e), gs, ms, |gs|);
  }

  /** A group after slot `i`'s own belongs to a later slot. */
  lemma {:induction false} LaterGroup(names: seq<string>, i: nat, j: nat)
    requires i < |names| && names[i] != ""
    requires NamedBefore(names, i) < j < |GroupNames(names)|
    ensures exists k :: i < k < |names| && names[k] == GroupNames(names)[j]
    decreases |names|
  {
    assert names[..i + 1][..i] == names[..i];
    if i == 0 {
      assert names[..0] == [];
      assert GroupNames(names) == [names[0]] + GroupNames(names[1..]);
      var k :| 0 <= k < |names[1..]| && names[1..][k] == GroupNames(names[1..])[j - 1] by {
        InGroupNames(names[1..], j - 1);
      }
      assert names[k + 1] == GroupNames(names)[j];
    } else {
      assert names[..i][1..] == names[1..][..i - 1];
      if names[0] != "" {
        LaterGroup(names[1..], i - 1, j - 1);
      } else {
        LaterGroup(names[1..], i - 1, j);
      }
      var k :| i - 1 < k < |names[1..]| && names[1..][k] == GroupNames(names[1..])[if names[0] != "" then j - 1 else j];
      assert names[k + 1] == GroupNames(names)[j];
    }
  }

  /** Every group name is some slot's name. */
  lemma {:induction false} InGroupNames(names: seq<string>, j: nat)
    requires j < |GroupNames(names)|
    ensures exists k :: 0 <= k < |names| && names[k] == GroupNames(names)[j]
    decreases |names|
  {
    if names[0] != "" {
      if j == 0 {
        assert names[0] == GroupNames(names)[0];
      } else {
        InGroupNames(names[1..], j - 1);
        var k :| 0 <= k < |names[1..]| && names[1..][k] == GroupNames(names[1..])[j - 1];
        assert names[k + 1] == GroupNames(names)[j];
      }
    } else {
      InGroupNames(names[1..], j);
      var k :| 0 <= k < |names[1..]| && names[1..][k] == GroupNames(names[1..])[j];
      assert names[k + 1] == GroupNames(names)[j];
    }
  }

  // ---------------------------------------------------------------------------
  // The pattern from the source's own documentation, with the `client` name
  // dropped: `%{IP} %{WORD:method}`.

  /** Where the example pattern's tokens start, and the space between them. */
  lemma ExampleTokens(p: string)
    requires p == "%{IP} %{WORD:method}"
    ensures TokenAt(p, 0) == Some(Token("IP", ""))
    ensures TokenAt(p, 5) == None
    ensures TokenAt(p, 6) == Some(Token("WORD", "method"))
  {
    ExampleFirstToken(p);
    ExampleSecondToken(p);
    assert p[5] == ' ';
  }

  lemma ExampleFirstToken(p: string)
    requires p == "%{IP} %{WORD:method}"
    ensures TokenAt(p, 0) == Some(Token("IP", ""))
  {
    var t0 := Token("IP", "");
    assert TokenText(t0) == "%{IP}";
    assert p[0..5] == TokenText(t0);
    TokenAtFindsText(p, 0, t0);
  }

  lemma ExampleSecondToken(p: string)
    requires p == "%{IP} %{WORD:method}"
    ensures TokenAt(p, 6) == Some(Token("WORD", "method"))
  {
    var t1 := Token("WORD", "method");
    assert TokenText(t1) == "%{WORD:method}";
    assert p[6..20] == TokenText(t1);
    TokenAtFindsText(p, 6, t1);
  }

  /** The example pattern scans to an anonymous `IP` token, a space and a
      `WORD` token naming `method`. */
  lemma ExampleScan(p: string)
    requires p == "%{IP} %{WORD:method}"
    ensures Scan(p) == [Tok(Token("IP", "")), Lit(' '), Tok(Token("WORD", "method"))]
  {
    var t0, t1 := Token("IP", ""), Token("WORD", "method");
    ExampleTokens(p);
    assert |TokenText(t0)| == 5 && |TokenText(t1)| == 14 && |p| == 20;
    assert ScanFrom(p, 20) == [];
    assert ScanFrom(p, 6) == [Tok(t1)];
    assert ScanFrom(p, 5) == [Lit(' '), Tok(t1)];
  }

  /** So the example's slots are `["", "method"]`. */
  lemma ExampleSlots(p: string)
    requires p == "%{IP} %{WORD:method}"
    ensures Tokens(Scan(p)) == [Token("IP", ""), Token("WORD", "method")]
    ensures Compile(p).Ok? && Compile(p).value.1 == ["", "method"]
  {
    var t0, t1 := Token("IP", ""), Token("WORD", "method");
    var ps := [Tok(t0), Lit(' '), Tok(t1)];
    ExampleScan(p);
    assert ps[1..][1..][1..] == [];
    assert Tokens(ps[1..][1..]) == [t1];
    assert Tokens(ps[1..]) == [t1];
    assert Tokens(ps) == [t0, t1];
    assert "IP" in BuiltinPatterns && "WORD" in BuiltinPatterns;
    CompilePiecesSpec(ps, BuiltinPatterns);
  }

  /** As written, the parser reads `method` from submatch 2, but the compiled
      regex `(?:…) (\w+)` has a single group, so the engine returns two
      submatches and `method` is never set. */
  lemma SlotIndexLosesField(regex: Submatcher, e: LogEntry, whole: string, verb: string)
    requires regex(e.message) == Some([whole, verb]) && e.fields.None?
    ensures ParseBySlot(regex, ["", "method"], e) == (true, e.(fields := Some(map[])))
  {
    assert Assign(map[], ["", "method"], [whole, verb], 1) == map[];
  }

  /** Numbered by group, the same submatches give `method` the verb. */
  lemma GroupIndexKeepsField(regex: Submatcher, e: LogEntry, whole: string, verb: string)
    requires regex(e.message) == Some([whole, verb]) && e.fields.None?
    ensures ParseByGroup(regex, ["", "method"], e).1.fields == Some(map["method" := verb])
  {
    var names: seq<string> := ["", "method"];
    assert names[1..] == ["method"] && names[1..][1..] == [];
    assert GroupNames(names) == ["method"];
    assert Assign(map[], ["method"], [whole, verb], 1) == map["method" := verb];
  }
}
