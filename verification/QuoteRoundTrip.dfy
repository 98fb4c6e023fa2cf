/**
 Quoted strings read back the way the Go language specification says (section "String literals"), for
 every byte, also those JSON has no escape for.
 */
module QuoteRoundTrip {
  import opened Basics
  import opened Msgpack
  import opened JsonRoundTrip
  import opened Sequences

  /** The byte a two-character escape stands for. */
  function Escaped(c: char): Option<Byte> {
    match c
    case 'a' => Some(7)
    case 'b' => Some(8)
    case 'f' => Some(12)
    case 'n' => Some(10)
    case 'r' => Some(13)
    case 't' => Some(9)
    case 'v' => Some(11)
    case '\\' => Some(92)
    case '\"' => Some(34)
    case _ => None
  }

  function PrependByte(b: Byte, r: Option<(Bytes, string)>): Option<(Bytes, string)> {
    if r.None? then None else Some(([b] + r.value.0, r.value.1))
  }

  /** The bytes of a literal after its opening quote, and what follows the closing one. */
  function Unquote(s: string): Option<(Bytes, string)>
    decreases |s|
  {
    if s == "" || s[0] == '\n' || s[0] as int >= 256 then None
    else if s[0] == '\"' then Some(([], s[1..]))
    else if s[0] != '\\' then PrependByte(s[0] as int, Unquote(s[1..]))
    else if |s| >= 4 && s[1] == 'x' && Unhex(s[2..4]).Some? && |Unhex(s[2..4]).value| == 1 then
      PrependByte(Unhex(s[2..4]).value[0], Unquote(s[4..]))
    else if |s| >= 2 && Escaped(s[1]).Some? then PrependByte(Escaped(s[1]).value, Unquote(s[2..]))
    else None
  }

  lemma EscapeUnquotes(b: Byte, rest: string)
    requires b < 0x80
    ensures Unquote(EscapeAscii(b) + rest) == PrependByte(b, Unquote(rest))
  {
    var e := EscapeAscii(b);
    var s := e + rest;
    EscapeLength(b);
    if |e| == 1 {
      Singleton(b as char, rest);
    } else if |e| == 2 {
      assert s[0] == '\\' && s[1] == e[1] && s[2..] == rest;
    } else {
      HexReads([b]);
      assert e == ['\\', 'x'] + Hex([b]) && s[2..4] == Hex([b]) && s[4..] == rest && s[0] == '\\' && s[1] == 'x';
    }
  }

  /** Printable bytes stand for themselves, but for quote and backslash; seven control characters, and
      these two, take two characters, all others four. */
  lemma EscapeLength(b: Byte)
    requires b < 0x80
    ensures |EscapeAscii(b)| ==
            if b == '\"' as int || b == '\\' as int || 7 <= b <= 13 then 2 else if 0x20 <= b < 0x7f then 1 else 4
  {
    HexReads([b]);
  }

  lemma {:induction false} RunUnquotes(run: Bytes, rest: string)
    requires forall i :: 0 <= i < |run| ==> run[i] >= 0x80
    ensures Unquote(Text(run) + rest) == PrependBytes(run, Unquote(rest))
  {
    if run == [] {
      assert Text(run) + rest == rest;
      PrependNone(Unquote(rest));
    } else {
      RunUnquotes(run[1..], rest);
      var c := run[0] as char;
      assert Text(run) == [c] + Text(run[1..]);
      Assoc([c], Text(run[1..]), rest);
      Singleton(c, Text(run[1..]) + rest);
      PrependCons(run, Unquote(rest));
    }
  }

  function PrependBytes(bs: Bytes, r: Option<(Bytes, string)>): Option<(Bytes, string)> {
    if r.None? then None else Some((bs + r.value.0, r.value.1))
  }

  lemma PrependNone(r: Option<(Bytes, string)>)
    ensures PrependBytes([], r) == r
  {
    if r.Some? {
      Empty(r.value.0);
    }
  }

  lemma PrependCons(bs: Bytes, r: Option<(Bytes, string)>)
    requires bs != []
    ensures PrependByte(bs[0], PrependBytes(bs[1..], r)) == PrependBytes(bs, r)
  {
    if r.Some? {
      assert [bs[0]] + (bs[1..] + r.value.0) == bs + r.value.0;
    }
  }

  /** What stands between the quotes reads back as the bytes of the string, all of them. */
  lemma {:induction false} QuoteUnquotes(f: Formats, s: Bytes, tail: string)
    requires Verbatim(f, s)
    ensures Unquote(QuoteBody(f, s) + ("\"" + tail)) == Some((s, tail))
    decreases |s|
  {
    hide EscapeAscii, Unquote;
    if s == [] {
      Empty("\"" + tail);
      ClosingQuote(tail);
    } else if s[0] < 0x80 {
      QuoteUnquotes(f, s[1..], tail);
      EscapeUnquotes(s[0], QuoteBody(f, s[1..]) + ("\"" + tail));
      Assoc(EscapeAscii(s[0]), QuoteBody(f, s[1..]), "\"" + tail);
      assert [s[0]] + s[1..] == s;
    } else {
      var n := RunLength(s);
      QuoteUnquotes(f, s[n..], tail);
      RunUnquotes(s[..n], QuoteBody(f, s[n..]) + ("\"" + tail));
      Assoc(Text(s[..n]), QuoteBody(f, s[n..]), "\"" + tail);
      SplitAt(s, n);
    }
  }

  lemma ClosingQuote(tail: string)
    ensures Unquote("\"" + tail) == Some(([], tail))
  {
    Singleton('\"', tail);
  }

  /** Two strings never have the same literal. */
  lemma QuoteInjective(f: Formats, s: Bytes, t: Bytes)
    requires Verbatim(f, s) && Verbatim(f, t) && Quote(f, s) == Quote(f, t)
    ensures s == t
  {
    QuoteUnquotes(f, s, "");
    QuoteUnquotes(f, t, "");
    var a, b := QuoteBody(f, s), QuoteBody(f, t);
    hide *;
    Inner(f, s);
    Inner(f, t);
    Empty("\"");
  }

  lemma Inner(f: Formats, s: Bytes)
    ensures Quote(f, s)[1..] == QuoteBody(f, s) + "\""
  {}
}
