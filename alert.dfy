/** `AlertEngine`: named regex rules, each counting the entries whose message
    it matches. The regex engine is abstract: a compiled pattern is a
    predicate on the message. */
module Alerts {
  import opened Wrappers
  import opened Entries

  /** One rule: its name (the pattern text), matcher and hit count. */
  datatype AlertRule = AlertRule(name: string, matches: string -> bool, count: int)

  /** Go's `%q` for the bytes of a pattern: quotes, backslash escapes for `"`
      and `\`, the named control escapes, `\xNN` for other control bytes;
      printable bytes are kept. `Unquote` reads it back. */
  function Quote(s: string): (r: string)
    ensures |r| >= 2 && r[0] == '"' && r[|r| - 1] == '"'
    ensures r[1..|r| - 1] == QuoteBody(s)
  {
    var r := "\"" + QuoteBody(s) + "\"";
    assert r[1..|r| - 1] == QuoteBody(s);
    r
  }

  function QuoteBody(s: string): string
    decreases |s|
  {
    if s == [] then "" else QuoteChar(s[0]) + QuoteBody(s[1..])
  }

  /** One byte under `%q`: a plain byte stays itself; every other byte
      becomes an escape of at least two bytes starting with a backslash. */
  function QuoteChar(c: char): (r: string)
    ensures Plain(c) ==> r == [c]
    ensures !Plain(c) ==> |r| >= 2 && r[0] == '\\'
    ensures c == '\\' ==> r == "\\\\"
    ensures c == '"' ==> r == "\\\""
  {
    if c == '"' then "\\\""
    else if c == '\\' then "\\\\"
    else if c == '\U{0007}' then "\\a"
    else if c == '\U{0008}' then "\\b"
    else if c == '\U{000C}' then "\\f"
    else if c == '\n' then "\\n"
    else if c == '\r' then "\\r"
    else if c == '\t' then "\\t"
    else if c == '\U{000B}' then "\\v"
    else if c < ' ' || c == '\U{007F}' then "\\x" + [HexDigit(c as int / 16), HexDigit(c as int % 16)]
    else [c]
  }

  function HexDigit(d: int): (c: char)
    requires 0 <= d < 16
    ensures HexValue(c) == d
  {
    "0123456789abcdef"[d]
  }

  /** The value of a hexadecimal digit of either case, -1 for any other byte. */
  function HexValue(c: char): (v: int)
    ensures -1 <= v < 16
  {
    if '0' <= c <= '9' then c as int - '0' as int
    else if 'a' <= c <= 'f' then c as int - 'a' as int + 10
    else if 'A' <= c <= 'F' then c as int - 'A' as int + 10
    else -1
  }

  /** Bytes that `%q` leaves alone. */
  predicate Plain(c: char)
  {
    ' ' <= c && c != '"' && c != '\\' && c != '\U{007F}'
  }

  /** Quoting works byte by byte, so it distributes over concatenation. */
  lemma {:induction false} QuoteBodyConcat(a: string, b: string)
    ensures QuoteBody(a + b) == QuoteBody(a) + QuoteBody(b)
    decreases |a|
  {
    if a == [] {
      assert a + b == b;
    } else {
      assert (a + b)[0] == a[0] && (a + b)[1..] == a[1..] + b;
      QuoteBodyConcat(a[1..], b);
    }
  }

  /** A pattern of plain bytes is quoted by just adding quotes. */
  lemma {:induction false} QuotePlain(s: string)
    requires forall i :: 0 <= i < |s| ==> Plain(s[i])
    ensures Quote(s) == "\"" + s + "\""
  {
    QuoteBodyPlain(s);
  }

  lemma {:induction false} QuoteBodyPlain(s: string)
    requires forall i :: 0 <= i < |s| ==> Plain(s[i])
    ensures QuoteBody(s) == s
    decreases |s|
  {
    if s != [] {
      QuoteBodyPlain(s[1..]);
      assert s == [s[0]] + s[1..];
    }
  }

  /** A typical pattern: its backslash is doubled and the rest is kept. */
  lemma QuoteDigitsPattern()
    ensures Quote("\\d+ ms") == "\"\\\\d+ ms\""
  {
    QuoteBodyConcat("\\", "d+ ms");
    QuoteBodyPlain("d+ ms");
    assert "\\" + "d+ ms" == "\\d+ ms";
    assert QuoteBody("\\") == QuoteChar('\\') + QuoteBody([]);
  }

  /** The byte an escape letter after a backslash stands for. */
  function EscapedChar(e: char): Option<char>
  {
    if e == '"' then Some('"')
    else if e == '\\' then Some('\\')
    else if e == 'a' then Some('\U{0007}')
    else if e == 'b' then Some('\U{0008}')
    else if e == 'f' then Some('\U{000C}')
    else if e == 'n' then Some('\n')
    else if e == 'r' then Some('\r')
    else if e == 't' then Some('\t')
    else if e == 'v' then Some('\U{000B}')
    else None
  }

  function Prepend(c: char, o: Option<string>): Option<string>
  {
    if o.Some? then Some([c] + o.value) else None
  }

  /** `strconv.Unquote` restricted to the byte escapes `%q` writes: the text
      between the quotes with every escape decoded, or `None` when it is not
      such a quoted string. */
  function Unquote(q: string): Option<string>
  {
    if |q| >= 2 && q[0] == '"' && q[|q| - 1] == '"' then Unescape(q[1..|q| - 1]) else None
  }

  function Unescape(t: string): Option<string>
    decreases |t|
  {
    if t == [] then Some([])
    else if t[0] != '\\' then
      if Plain(t[0]) then Prepend(t[0], Unescape(t[1..])) else None
    else if |t| >= 4 && t[1] == 'x' && HexValue(t[2]) >= 0 && HexValue(t[3]) >= 0 then
      Prepend((16 * HexValue(t[2]) + HexValue(t[3])) as char, Unescape(t[4..]))
    else if |t| >= 2 && EscapedChar(t[1]).Some? then
      Prepend(EscapedChar(t[1]).value, Unescape(t[2..]))
    else None
  }

  /** Decoding the quoted form of one byte gives that byte back. */
  lemma UnescapeChar(c: char, t: string)
    ensures Unescape(QuoteChar(c) + t) == Prepend(c, Unescape(t))
  {
    var q := QuoteChar(c) + t;
    if Plain(c) {
      assert q[1..] == t;
    } else if (c < ' ' && c !in "\U{0007}\U{0008}\U{000C}\n\r\t\U{000B}") || c == '\U{007F}' {
      var hi, lo := c as int / 16, c as int % 16;
      assert q[..4] == "\\x" + [HexDigit(hi), HexDigit(lo)];
      assert q[4..] == t;
      assert (16 * hi + lo) as char == c;
    } else {
      assert q[2..] == t;
    }
  }

  lemma {:induction false} UnescapeQuoteBody(s: string)
    ensures Unescape(QuoteBody(s)) == Some(s)
    decreases |s|
  {
    if s != [] {
      UnescapeQuoteBody(s[1..]);
      UnescapeChar(s[0], QuoteBody(s[1..]));
      assert [s[0]] + s[1..] == s;
    }
  }

  /** `%q` loses nothing: unquoting gives the pattern back, so different
      patterns are quoted differently. */
  lemma QuoteRoundTrip(s: string)
    ensures Unquote(Quote(s)) == Some(s)
  {
    UnescapeQuoteBody(s);
  }

  /** The error `NewAlertEngine` returns for a pattern that does not
      compile: the quoted pattern, then the compiler's error. */
  function CompileError(pattern: string, err: string): string
  {
    "invalid alert pattern " + Quote(pattern) + ": " + err
  }

  /** `NewAlertEngine`'s loop as a function: one fresh rule per pattern, in
      order and named by it, or the error for the first pattern that does not
      compile. */
  function CompileRules(patterns: seq<string>, compile: string -> Result<string -> bool, string>): (r: Result<seq<AlertRule>, string>)
    ensures r.Ok? <==> forall i :: 0 <= i < |patterns| ==> compile(patterns[i]).Ok?
    ensures r.Ok? ==> (
      && |r.value| == |patterns|
      && forall i :: 0 <= i < |patterns| ==> r.value[i] == AlertRule(patterns[i], compile(patterns[i]).value, 0))
    ensures r.Err? ==> exists i :: (0 <= i < |patterns| && compile(patterns[i]).Err?
      && (forall j :: 0 <= j < i ==> compile(patterns[j]).Ok?)
      && r.error == CompileError(patterns[i], compile(patterns[i]).error))
    decreases |patterns|
  {
    if patterns == [] then Ok([])
    else
      var c := compile(patterns[0]);
      if c.Err? then
        Err(CompileError(patterns[0], c.error))
      else
        var rest := CompileRules(patterns[1..], compile);
        if rest.Err? then
          var i :| 0 <= i < |patterns[1..]| && compile(patterns[1..][i]).Err?
            && (forall j :: 0 <= j < i ==> compile(patterns[1..][j]).Ok?)
            && rest.error == CompileError(patterns[1..][i], compile(patterns[1..][i]).error);
          assert forall j :: 1 <= j < i + 1 ==> compile(patterns[j]).Ok? by {
            forall j | 1 <= j < i + 1 ensures compile(patterns[j]).Ok? {
              assert patterns[j] == patterns[1..][j - 1];
            }
          }
          assert patterns[i + 1] == patterns[1..][i];
          rest
        else
          assert forall i :: 1 <= i < |patterns| ==> patterns[i] == patterns[1..][i - 1];
          Ok([AlertRule(patterns[0], c.value, 0)] + rest.value)
  }

  /** The names of the rules that match `msg`, in rule order. */
  function Triggered(rules: seq<AlertRule>, msg: string): (names: seq<string>)
    ensures |names| <= |rules|
    decreases |rules|
  {
    if rules == [] then []
    else (if rules[0].matches(msg) then [rules[0].name] else []) + Triggered(rules[1..], msg)
  }

  /** Every rule that matches `msg` counts one more hit. */
  function Bumped(rules: seq<AlertRule>, msg: string): (r: seq<AlertRule>)
    ensures |r| == |rules|
    ensures forall i :: 0 <= i < |rules| ==>
      r[i] == rules[i].(count := rules[i].count + (if rules[i].matches(msg) then 1 else 0))
  {
    seq(|rules|, i requires 0 <= i < |rules| =>
      rules[i].(count := rules[i].count + (if rules[i].matches(msg) then 1 else 0)))
  }

  /** The sum of the hit counts. */
  function Total(rules: seq<AlertRule>): int
    decreases |rules|
  {
    if rules == [] then 0 else rules[0].count + Total(rules[1..])
  }

  /** One check adds exactly one hit per triggered name to the total. */
  lemma {:induction false} CheckAddsTriggered(rules: seq<AlertRule>, msg: string)
    ensures Total(Bumped(rules, msg)) == Total(rules) + |Triggered(rules, msg)|
    decreases |rules|
  {
    if rules != [] {
      CheckAddsTriggered(rules[1..], msg);
      assert Bumped(rules, msg)[1..] == Bumped(rules[1..], msg);
    }
  }

  /** A name is triggered exactly when some rule of that name matches. */
  lemma {:induction false} TriggeredIffMatch(rules: seq<AlertRule>, msg: string, name: string)
    ensures name in Triggered(rules, msg) <==> exists i :: 0 <= i < |rules| && rules[i].name == name && rules[i].matches(msg)
    decreases |rules|
  {
    if rules != [] {
      TriggeredIffMatch(rules[1..], msg, name);
      if exists i :: 0 <= i < |rules| && rules[i].name == name && rules[i].matches(msg) {
        var i :| 0 <= i < |rules| && rules[i].name == name && rules[i].matches(msg);
        if i > 0 {
          assert rules[1..][i - 1] == rules[i];
        }
      }
      if exists i :: 0 <= i < |rules[1..]| && rules[1..][i].name == name && rules[1..][i].matches(msg) {
        var i :| 0 <= i < |rules[1..]| && rules[1..][i].name == name && rules[1..][i].matches(msg);
        assert rules[i + 1] == rules[1..][i];
      }
    }
  }

  predicate IsDigit(c: char)
  {
    '0' <= c <= '9'
  }

  predicate AllDigits(s: string)
  {
    forall i :: 0 <= i < |s| ==> IsDigit(s[i])
  }

  /** The number a string of decimal digits stands for. */
  function DigitsValue(s: string): nat
    requires AllDigits(s)
    decreases |s|
  {
    if s == [] then 0 else 10 * DigitsValue(s[..|s| - 1]) + (s[|s| - 1] as int - '0' as int)
  }

  function DigitChar(d: nat): (c: char)
    requires d < 10
    ensures IsDigit(c) && c as int - '0' as int == d
  {
    "0123456789"[d]
  }

  /** `%d` for a count: base-10 digits with no leading zero that read back
      as `n`. */
  function Decimal(n: nat): (r: string)
    ensures r != [] && AllDigits(r)
    ensures DigitsValue(r) == n
    ensures r[0] == '0' <==> n == 0
    decreases n
  {
    if n < 10 then [DigitChar(n)]
    else
      var r := Decimal(n / 10) + [DigitChar(n % 10)];
      assert r[..|r| - 1] == Decimal(n / 10);
      r
  }

  /** `%-30s`: pad on the right with spaces to 30 bytes. */
  function PadRight(s: string, width: nat): (r: string)
    ensures |r| == if |s| < width then width else |s|
    ensures r[..|s|] == s
    ensures forall k :: |s| <= k < |r| ==> r[k] == ' '
  {
    if |s| < width then s + seq(width - |s|, _ => ' ') else s
  }

  /** `%d` for a count of either sign: a minus sign exactly for a negative
      count, then the digits of its magnitude. */
  function Signed(n: int): (r: string)
    ensures r != [] && (n < 0 <==> r[0] == '-')
    ensures n >= 0 ==> AllDigits(r) && DigitsValue(r) == n
    ensures n < 0 ==> AllDigits(r[1..]) && DigitsValue(r[1..]) == -n
  {
    if n >= 0 then Decimal(n)
    else
      var r := "-" + Decimal(-n);
      assert r[1..] == Decimal(-n);
      r
  }

  /** One rule's summary line, `  %-30s %d hits`: two spaces, the name
      padded with spaces to 30 bytes, then a space, the count and " hits". */
  function RuleLine(r: AlertRule): (line: string)
    ensures var w := if |r.name| < 30 then 30 else |r.name|;
      && |line| == w + |Signed(r.count)| + 9
      && line[..2] == "  " && line[2..2 + |r.name|] == r.name
      && (forall k :: 2 + |r.name| <= k < 2 + w ==> line[k] == ' ')
      && line[2 + w..] == " " + Signed(r.count) + " hits\n"
  {
    var pad := PadRight(r.name, 30);
    var tail := " " + Signed(r.count) + " hits\n";
    var line := "  " + pad + tail;
    assert line[2..2 + |pad|] == pad;
    assert line[2 + |pad|..] == tail;
    line
  }

  /** The summary lines of the rules, in rule order. */
  function RuleLines(rules: seq<AlertRule>): string
    decreases |rules|
  {
    if rules == [] then "" else RuleLines(rules[..|rules| - 1]) + RuleLine(rules[|rules| - 1])
  }

  const SummaryHeader := "── Alerts ──\n"
  const SummaryFooter := "────────────"

  class AlertEngine {
    var rules: seq<AlertRule>

    constructor (rules: seq<AlertRule>)
      ensures this.rules == rules
    {
      this.rules := rules;
    }

    /** `Check`: count a hit on every matching rule and return their names in
        rule order. */
    method Check(e: LogEntry) returns (triggered: seq<string>)
      modifies this
      ensures rules == Bumped(old(rules), e.message)
      ensures triggered == Triggered(old(rules), e.message)
    {
      if |rules| == 0 {
        return [];
      }
      ghost var rules0 := rules;
      ghost var bumped := Bumped(rules0, e.message);
      triggered := [];
      var i := 0;
      while i < |rules|
        invariant 0 <= i <= |rules| && |rules| == |rules0|
        invariant forall k :: 0 <= k < i ==> rules[k] == bumped[k]
        invariant forall k :: i <= k < |rules| ==> rules[k] == rules0[k]
        invariant triggered + Triggered(rules0[i..], e.message) == Triggered(rules0, e.message)
      {
        assert rules0[i..][1..] == rules0[i + 1..];
        var r := rules[i];
        if r.matches(e.message) {
          rules := rules[i := r.(count := r.count + 1)];
          triggered := triggered + [r.name];
        }
        i := i + 1;
      }
      assert rules0[i..] == [];
    }

    /** `TotalAlerts`: the sum of the hit counts. */
    method TotalAlerts() returns (total: int)
      ensures total == Total(rules)
    {
      total := 0;
      var i := 0;
      while i < |rules|
        invariant 0 <= i <= |rules|
        invariant total + Total(rules[i..]) == Total(rules)
      {
        assert rules[i..][1..] == rules[i + 1..];
        total := total + rules[i].count;
        i := i + 1;
      }
    }

    /** `Summary`: empty exactly when there are no rules; otherwise a header,
        one line per rule with its padded name and hit count, and a footer. */
    method Summary() returns (s: string)
      ensures s == "" <==> |rules| == 0
      ensures |rules| > 0 ==> s == SummaryHeader + RuleLines(rules) + SummaryFooter
    {
      if |rules| == 0 {
        return "";
      }
      var lines := "";
      var i := 0;
      while i < |rules|
        invariant 0 <= i <= |rules|
        invariant lines == RuleLines(rules[..i])
      {
        assert rules[..i + 1][..i] == rules[..i];
        lines := lines + RuleLine(rules[i]);
        i := i + 1;
      }
      assert rules[..i] == rules;
      s := SummaryHeader + lines + SummaryFooter;
      assert |s| >= |SummaryHeader| > 0;
    }
  }

  /** `NewAlertEngine`: one rule per pattern, or the first compile error. */
  method NewAlertEngine(patterns: seq<string>, compile: string -> Result<string -> bool, string>)
    returns (r: Result<AlertEngine, string>)
    ensures CompileRules(patterns, compile).Err? ==> r == Err(CompileRules(patterns, compile).error)
    ensures CompileRules(patterns, compile).Ok? ==> r.Ok? && r.value.rules == CompileRules(patterns, compile).value
  {
    var rules: seq<AlertRule> := [];
    var i := 0;
    while i < |patterns|
      invariant 0 <= i <= |patterns|
      invariant forall j :: 0 <= j < i ==> compile(patterns[j]).Ok?
      invariant |rules| == i
      invariant forall j :: 0 <= j < i ==> rules[j] == AlertRule(patterns[j], compile(patterns[j]).value, 0)
    {
      var c := compile(patterns[i]);
      if c.Err? {
        return Err(CompileError(patterns[i], c.error));
      }
      rules := rules + [AlertRule(patterns[i], c.value, 0)];
      i := i + 1;
    }
    var engine := new AlertEngine(rules);
    return Ok(engine);
  }
}
