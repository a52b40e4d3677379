/** The Docker source's line handling: the name it reports and the split of a
    `docker logs --timestamps` line into its timestamp and message. Parsing
    the RFC 3339 date-time (section 5.6 of RFC 3339) is a parameter: it maps a
    token to the instant it denotes, in nanoseconds, or to `None`. The
    fallback clock reading `now` is a parameter too. */
module Docker {
  import opened Wrappers

  /** Width of the timestamp token Docker writes: nine fractional digits and
      `Z`. */
  const TokenWidth: nat := 30

  /** `DockerSource.Name`. */
  function Name(container: string): (r: string)
    ensures |r| == 7 + |container| && r[..7] == "docker:" && r[7..] == container
  {
    "docker:" + container
  }

  /** `parseDockerTimestamp`: a line of at least 31 bytes whose first 30 bytes
      parse as a date-time yields that instant and the bytes after byte 30;
      any other line is kept whole, stamped with `now`. */
  function ParseDockerTimestamp(line: string, now: int, parse: string -> Option<int>): (r: (int, string))
    ensures |r.1| <= |line| && r.1 == line[|line| - |r.1|..]
    ensures r.1 == line <==> |line| <= TokenWidth || parse(line[..TokenWidth]).None?
    ensures r.1 == line ==> r.0 == now
    ensures r.1 != line ==> r.0 == parse(line[..TokenWidth]).value && |r.1| == |line| - TokenWidth - 1
  {
    if |line| < TokenWidth + 1 then (now, line)
    else
      match parse(line[..TokenWidth])
      case None => (now, line)
      case Some(ts) => (ts, line[TokenWidth + 1..])
  }

  /** A split line reassembles: the 30-byte token, the separator byte and the
      message give back the line. */
  lemma SplitReassembles(line: string, now: int, parse: string -> Option<int>)
    requires |line| > TokenWidth && parse(line[..TokenWidth]).Some?
    ensures line == line[..TokenWidth] + [line[TokenWidth]] + ParseDockerTimestamp(line, now, parse).1
  {
    assert line == line[..TokenWidth] + line[TokenWidth..];
    assert line[TokenWidth..] == [line[TokenWidth]] + line[TokenWidth + 1..];
  }

  /** The round trip for a line Docker writes: a valid 30-byte token, a
      space and a message split back into the token's instant and the
      message, whatever the message holds. */
  lemma DockerLineRoundTrip(token: string, msg: string, now: int, parse: string -> Option<int>)
    requires |token| == TokenWidth && parse(token).Some?
    ensures ParseDockerTimestamp(token + " " + msg, now, parse) == (parse(token).value, msg)
  {
    var line := token + " " + msg;
    assert line[..TokenWidth] == token;
    assert line[TokenWidth + 1..] == msg;
  }

  /** The byte after a valid token is dropped without being looked at: any
      byte there gives the same split as a space. */
  lemma SeparatorUnchecked(token: string, sep: char, msg: string, now: int, parse: string -> Option<int>)
    requires |token| == TokenWidth && parse(token).Some?
    ensures ParseDockerTimestamp(token + [sep] + msg, now, parse) == ParseDockerTimestamp(token + " " + msg, now, parse)
  {
    var l1, l2 := token + [sep] + msg, token + " " + msg;
    assert |l1| == |l2| == TokenWidth + 1 + |msg|;
    assert l1[..TokenWidth] == token == l2[..TokenWidth];
    assert l1[TokenWidth + 1..] == msg == l2[TokenWidth + 1..];
  }

  /** A line too short to hold a token and a separator is kept whole, even if
      it starts with a valid token. */
  lemma ShortLineKept(line: string, now: int, parse: string -> Option<int>)
    requires |line| <= TokenWidth
    ensures ParseDockerTimestamp(line, now, parse) == (now, line)
  {
  }
}
