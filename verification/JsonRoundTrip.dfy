/** What a JSON parser makes of rendered values. */
module JsonRoundTrip {
  import opened Basics
  import opened Msgpack
  import opened Json
  import opened Sequences

  // ---------- which values, and what they mean ----------

  function Text(s: Bytes): string {
    seq(|s|, i requires 0 <= i < |s| => s[i] as char)
  }

  /** The ASCII bytes that `%q` writes the way RFC 8259 section 7 does. */
  predicate JsonByte(b: Byte) {
    b >= 0x80 || 0x20 <= b < 0x7f || b == 8 || b == 9 || b == 10 || b == 12 || b == 13
  }

  predicate SafeText(s: Bytes) {
    forall b :: b in s ==> JsonByte(b)
  }

  /** Non-ASCII runs are printed as they are (true of valid, printable UTF-8). */
  predicate Verbatim(f: Formats, s: Bytes)
    decreases |s|
  {
    if s == [] then true
    else if s[0] < 0x80 then Verbatim(f, s[1..])
    else f.quoteRun(s[..RunLength(s)]) == Text(s[..RunLength(s)]) && Verbatim(f, s[RunLength(s)..])
  }

  function TimeBytes(f: Formats, v: Value): Bytes
    requires v.Timestamp?
  {
    BytesOf(f.time(v.sec, v.nsec))
  }

  /** One character for each byte. */
  predicate ByteText(s: string) {
    forall c :: c in s ==> c as int < 256
  }

  lemma BytesOfText(s: string)
    requires ByteText(s)
    ensures Text(BytesOf(s)) == s
  {
    forall i | 0 <= i < |s|
      ensures Text(BytesOf(s))[i] == s[i]
    {
      assert s[i] in s;
    }
  }

  predicate NameSpelled(f: Formats, typ: int) {
    typ in f.extNames ==> ByteText(f.extNames[typ]) && Verbatim(f, BytesOf(f.extNames[typ]))
  }

  /** The values whose text is spelled out: no floats, and non-ASCII text only verbatim. */
  predicate Spelled(f: Formats, v: Value)
    decreases v, 1
  {
    match v
    case Float(_, _) => false
    case Str(s) => Verbatim(f, s)
    case Timestamp(sec, nsec) => ByteText(f.time(sec, nsec)) && Verbatim(f, TimeBytes(f, v))
    case Ext(typ, _) => NameSpelled(f, typ)
    case Arr(vs) => forall x :: x in vs ==> Spelled(f, x)
    case Map(es) => forall e :: e in es ==> SpelledEntry(f, e)
    case _ => true
  }

  predicate SpelledEntry(f: Formats, e: Entry)
    decreases e, 0
  {
    Spelled(f, e.key) && Spelled(f, e.val)
  }

  /** Strings over characters JSON can quote, and object names that are strings. */
  predicate Jsonable(f: Formats, v: Value)
    decreases v, 1
  {
    match v
    case Str(s) => SafeText(s)
    case Timestamp(_, _) => SafeText(TimeBytes(f, v))
    case Ext(typ, _) => typ in f.extNames ==> SafeText(BytesOf(f.extNames[typ]))
    case Arr(vs) => forall x :: x in vs ==> Jsonable(f, x)
    case Map(es) => forall e :: e in es ==> JsonableEntry(f, e)
    case _ => true
  }

  predicate JsonableEntry(f: Formats, e: Entry)
    decreases e, 0
  {
    (e.key.Str? || e.key.Bin? || e.key.Timestamp?) && Jsonable(f, e.key) && Jsonable(f, e.val)
  }

  /** The value of a lower-case hexadecimal digit. */
  function HexValue(c: char): Option<nat> {
    if '0' <= c <= '9' then Some(c as int - '0' as int)
    else if 'a' <= c <= 'f' then Some(c as int - 'a' as int + 10)
    else None
  }

  /** Reads bytes of two digits each, the high one first. */
  function Unhex(s: string): Option<Bytes> {
    if s == "" then Some([])
    else if |s| == 1 || HexValue(s[0]).None? || HexValue(s[1]).None? || Unhex(s[2..]).None? then None
    else Some([HexValue(s[0]).value * 16 + HexValue(s[1]).value] + Unhex(s[2..]).value)
  }

  /** The text that reads as the bytes of data. */
  ghost function HexText(data: Bytes): (t: string)
    ensures Unhex(t) == Some(data)
  {
    HexReads(data);
    var t :| Unhex(t) == Some(data);
    t
  }

  lemma DigitReads(d: nat)
    requires d < 16
    ensures HexValue(Digit(d)) == Some(d)
  {}

  lemma {:induction false} HexReads(data: Bytes)
    ensures Unhex(Hex(data)) == Some(data) && |Hex(data)| == 2 * |data|
  {
    if data != [] {
      HexReads(data[1..]);
      DigitReads(data[0] / 16);
      DigitReads(data[0] % 16);
      var s := Hex(data);
      assert s[0] == Digit(data[0] / 16) && s[1] == Digit(data[0] % 16) && s[2..] == Hex(data[1..]);
      assert [data[0] / 16 * 16 + data[0] % 16] + data[1..] == data;
    }
  }

  lemma {:induction false} UnhexInjective(s: string, t: string)
    requires Unhex(s).Some? && Unhex(s) == Unhex(t)
    ensures s == t
  {
    if s != "" && t != "" {
      var a, b := Unhex(s).value, Unhex(t).value;
      assert a[0] == b[0] && a[1..] == Unhex(s[2..]).value && b[1..] == Unhex(t[2..]).value;
      UnhexInjective(s[2..], t[2..]);
      assert s == [s[0], s[1]] + s[2..] && t == [t[0], t[1]] + t[2..];
    }
  }

  /** Bytes are printed as the one text that reads as them. */
  lemma HexIsText(data: Bytes)
    ensures Hex(data) == HexText(data)
  {
    HexReads(data);
    UnhexInjective(Hex(data), HexText(data));
  }

  ghost function Meaning(f: Formats, v: Value): Json
    decreases v, 1
  {
    match v
    case Nil => JNull
    case Bool(b) => JBool(b)
    case Int(n) => JNumber(n)
    case Float(_, _) => JNull
    case Str(s) => JString(Text(s))
    case Bin(s) => JString(HexText(s))
    case Arr(vs) => JArray(Meanings(f, vs))
    case Map(es) => JObject(MemberMeanings(f, es))
    case Timestamp(sec, nsec) => JString(f.time(sec, nsec))
    case Ext(typ, data) =>
      JArray([LabelMeaning(f, typ), JString(HexText(data))])
  }

  function LabelMeaning(f: Formats, typ: int): Json {
    if typ in f.extNames then JString(f.extNames[typ]) else JNumber(typ)
  }

  ghost function Meanings(f: Formats, vs: seq<Value>): seq<Json>
    decreases vs, 0
  {
    if vs == [] then [] else [Meaning(f, vs[0])] + Meanings(f, vs[1..])
  }

  ghost function MemberMeanings(f: Formats, es: seq<Entry>): seq<Member>
    decreases es, 0
  {
    if es == [] then [] else [MemberMeaning(f, es[0])] + MemberMeanings(f, es[1..])
  }

  ghost function MemberMeaning(f: Formats, e: Entry): Member
    decreases e, 2
  {
    var name := Meaning(f, e.key);
    Member(if name.JString? then name.s else "", Meaning(f, e.val))
  }

  // ---------- numbers ----------

  predicate Delimited(tail: string) {
    tail == "" || !IsDigit(tail[0])
  }

  lemma {:induction false} NaturalDigits(n: nat)
    ensures forall c :: c in Natural(n) ==> IsDigit(c)
    ensures NaturalValue(Natural(n)) == n
    ensures n > 0 ==> Natural(n)[0] != '0'
  {
    if n >= 10 {
      NaturalDigits(n / 10);
      assert Natural(n)[..|Natural(n)| - 1] == Natural(n / 10);
    }
  }

  lemma {:induction false} DigitRunStops(s: string, tail: string)
    requires (forall c :: c in s ==> IsDigit(c)) && Delimited(tail)
    ensures DigitRun(s + tail) == |s|
  {
    if s == "" {
      assert s + tail == tail;
    } else {
      DigitRunStops(s[1..], tail);
      assert (s + tail)[1..] == s[1..] + tail;
    }
  }

  lemma ParsesNatural(n: nat, tail: string)
    requires Delimited(tail)
    ensures ParseNatural(Natural(n) + tail) == Some(Parsed(n, tail))
  {
    NaturalDigits(n);
    var s := Natural(n);
    DigitRunStops(s, tail);
    assert (s + tail)[..|s|] == s && (s + tail)[|s|..] == tail;
  }

  lemma NumberValue(s: string)
    requires s != "" && (s[0] == '-' || IsDigit(s[0]))
    ensures ParseValue(s) == ParseNumber(s)
  {
    hide ParseNumber, ParseArray, ParseObject, ParseString;
    assert SkipSpace(s) == s;
  }

  lemma ParsesInt(n: int, tail: string)
    requires Delimited(tail)
    ensures ParseValue(Decimal(n) + tail) == Some(Parsed(JNumber(n), tail))
  {
    hide Natural, ParseNatural, ParseValue;
    NaturalDigits(if n < 0 then -n else n);
    ParsesNatural(if n < 0 then -n else n, tail);
    if n < 0 {
      Assoc("-", Natural(-n), tail);
      Singleton('-', Natural(-n) + tail);
    } else {
      Uncons(Natural(n), tail);
      assert Natural(n)[0] in Natural(n);
    }
    NumberValue(Decimal(n) + tail);
  }

  // ---------- strings ----------

  function PrependText(t: string, r: Option<Parsed<string>>): Option<Parsed<string>> {
    if r.None? then None else Some(Parsed(t + r.value.value, r.value.rest))
  }

  lemma EscapeParses(b: Byte, rest: string)
    requires b < 0x80
    ensures ParseString(EscapeAscii(b) + rest) == if JsonByte(b) then Prepend(b as char, ParseString(rest)) else None
  {
    var s := EscapeAscii(b) + rest;
    if |EscapeAscii(b)| == 1 {
      assert s[1..] == rest;
    } else {
      assert s[0] == '\\' && s[1] == EscapeAscii(b)[1];
      if |EscapeAscii(b)| == 2 {
        assert s[2..] == rest;
      }
    }
  }

  lemma PlainCharParses(c: char, rest: string)
    requires c as int >= 0x80
    ensures ParseString([c] + rest) == Prepend(c, ParseString(rest))
  {
    Singleton(c, rest);
  }

  lemma PrependOnce(c: char, t: string, r: Option<Parsed<string>>)
    ensures Prepend(c, PrependText(t, r)) == PrependText([c] + t, r)
  {
    if r.Some? {
      Assoc([c], t, r.value.value);
    }
  }

  lemma {:induction false} RunParses(run: Bytes, rest: string)
    requires forall i :: 0 <= i < |run| ==> run[i] >= 0x80
    ensures ParseString(Text(run) + rest) == PrependText(Text(run), ParseString(rest))
  {
    if run == [] {
      assert Text(run) + rest == rest;
      assert forall t: string :: "" + t == t;
    } else {
      RunParses(run[1..], rest);
      var c := run[0] as char;
      assert Text(run) == [c] + Text(run[1..]);
      Assoc([c], Text(run[1..]), rest);
      PlainCharParses(c, Text(run[1..]) + rest);
      PrependOnce(c, Text(run[1..]), ParseString(rest));
    }
  }

  lemma FrontPart(s: Bytes, n: nat)
    requires n <= |s|
    ensures Text(s) == Text(s[..n]) + Text(s[n..])
    ensures SafeText(s) <==> SafeText(s[..n]) && SafeText(s[n..])
  {
    assert s == s[..n] + s[n..];
  }

  lemma {:induction false} QuoteBodyParses(f: Formats, s: Bytes, tail: string)
    requires Verbatim(f, s)
    ensures ParseString(QuoteBody(f, s) + ("\"" + tail)) == if SafeText(s) then Some(Parsed(Text(s), tail)) else None
    decreases |s|
  {
    hide EscapeAscii, JsonByte;
    if s == [] {
      Singleton('\"', tail);
      assert "" + ("\"" + tail) == "\"" + tail && Text(s) == "";
    } else if s[0] < 0x80 {
      QuoteBodyParses(f, s[1..], tail);
      EscapeParses(s[0], QuoteBody(f, s[1..]) + ("\"" + tail));
      Assoc(EscapeAscii(s[0]), QuoteBody(f, s[1..]), "\"" + tail);
      FrontPart(s, 1);
      assert Text(s[..1]) == [s[0] as char] && s[..1] == [s[0]];
    } else {
      var n := RunLength(s);
      QuoteBodyParses(f, s[n..], tail);
      RunParses(s[..n], QuoteBody(f, s[n..]) + ("\"" + tail));
      Assoc(Text(s[..n]), QuoteBody(f, s[n..]), "\"" + tail);
      FrontPart(s, n);
      assert SafeText(s[..n]) by {
        RunIsSafe(s[..n]);
      }
    }
  }

  lemma RunIsSafe(run: Bytes)
    requires forall i :: 0 <= i < |run| ==> run[i] >= 0x80
    ensures SafeText(run)
  {}

  lemma Unquoted(body: string, tail: string)
    ensures ("\"" + body + "\"" + tail)[1..] == body + ("\"" + tail)
  {}

  lemma QuoteParses(f: Formats, s: Bytes, tail: string)
    requires Verbatim(f, s)
    ensures Quote(f, s)[0] == '\"'
    ensures ParseString((Quote(f, s) + tail)[1..]) == if SafeText(s) then Some(Parsed(Text(s), tail)) else None
  {
    QuoteBodyParses(f, s, tail);
    Unquoted(QuoteBody(f, s), tail);
  }

  lemma {:induction false} HexBodyParses(s: Bytes, rest: string)
    ensures ParseString(Hex(s) + rest) == PrependText(Hex(s), ParseString(rest))
  {
    hide ParseString, Prepend;
    if s == [] {
      assert Hex(s) + rest == rest;
      assert forall t: string :: "" + t == t;
    } else {
      var hi, lo, t := Digit(s[0] / 16), Digit(s[0] % 16), Hex(s[1..]) + rest;
      HexBodyParses(s[1..], rest);
      DigitParses(s[0] / 16, [lo] + t);
      DigitParses(s[0] % 16, t);
      assert Hex(s) + rest == [hi] + ([lo] + t);
      PrependTwice(hi, lo, Hex(s[1..]), ParseString(rest));
    }
  }

  lemma PrependTwice(a: char, b: char, t: string, r: Option<Parsed<string>>)
    ensures Prepend(a, Prepend(b, PrependText(t, r))) == PrependText([a, b] + t, r)
  {
    if r.Some? {
      assert [a] + ([b] + (t + r.value.value)) == [a, b] + t + r.value.value;
    }
  }

  lemma DigitParses(d: nat, rest: string)
    requires d < 16
    ensures ParseString([Digit(d)] + rest) == Prepend(Digit(d), ParseString(rest))
  {
    Singleton(Digit(d), rest);
  }

  lemma HexParses(s: Bytes, tail: string)
    ensures HexString(s)[0] == '\"'
    ensures ParseString((HexString(s) + tail)[1..]) == Some(Parsed(HexText(s), tail))
  {
    HexIsText(s);
    HexBodyParses(s, "\"" + tail);
    Unquoted(Hex(s), tail);
    Singleton('\"', tail);
    Empty(Hex(s));
  }

  // ---------- values ----------

  ghost function Expected(f: Formats, v: Value, tail: string): Option<Parsed<Json>> {
    if Jsonable(f, v) then Some(Parsed(Meaning(f, v), tail)) else None
  }

  /** A rendered value starts with a character that is neither space nor a closing bracket. */
  predicate Starts(s: string) {
    s != "" && !IsSpace(s[0]) && s[0] != ']' && s[0] != '}'
  }

  lemma RenderStarts(f: Formats, v: Value)
    requires !v.Float?
    ensures Starts(Render(f, v))
    ensures Render(f, v)[0] == '\"' <==> v.Str? || v.Bin? || v.Timestamp?
  {
    if v.Int? {
      NaturalDigits(if v.n < 0 then -v.n else v.n);
      assert v.n >= 0 ==> Natural(v.n)[0] in Natural(v.n);
    }
  }

  lemma StringValue(s: string)
    requires s != "" && s[0] == '\"'
    ensures ParseValue(s) == var r := ParseString(s[1..]);
                             if r.None? then None else Some(Parsed(JString(r.value.value), r.value.rest))
  {
    assert SkipSpace(s) == s;
  }

  lemma QuotedParses(f: Formats, s: Bytes, tail: string)
    requires Verbatim(f, s)
    ensures ParseValue(Quote(f, s) + tail) == if SafeText(s) then Some(Parsed(JString(Text(s)), tail)) else None
  {
    QuoteParses(f, s, tail);
    StringValue(Quote(f, s) + tail);
  }

  lemma HexQuotedParses(s: Bytes, tail: string)
    ensures ParseValue(HexString(s) + tail) == Some(Parsed(JString(HexText(s)), tail))
  {
    HexParses(s, tail);
    StringValue(HexString(s) + tail);
  }

  lemma SpaceBeforeValue(s: string)
    ensures ParseValue([' '] + s) == ParseValue(s)
  {
    Singleton(' ', s);
  }

  lemma BracketValue(s: string)
    ensures ParseValue("[" + s) == ParseArray(s)
    ensures ParseValue("{" + s) == ParseObject(s)
  {
    Singleton('[', s);
    Singleton('{', s);
  }

  lemma LastItem(s: string, v: Parsed<Json>, tail: string)
    requires ParseValue(s) == Some(v) && v.rest == "]" + tail
    ensures ParseItems(s) == Some(Parsed([v.value], tail))
  {
    Singleton(']', tail);
    assert SkipSpace(v.rest) == v.rest;
  }

  lemma MoreItems(s: string, v: Parsed<Json>, more: string)
    requires ParseValue(s) == Some(v) && v.rest == ", " + more
    ensures ParseItems(s) == var r := ParseItems(more);
                             if r.None? then None else Some(Parsed([v.value] + r.value.value, r.value.rest))
  {
    assert SkipSpace(v.rest) == v.rest && v.rest[1..] == [' '] + more;
    SpaceBeforeValue(more);
  }

  lemma LabelParses(f: Formats, typ: int, tail: string)
    requires NameSpelled(f, typ)
    requires Delimited(tail)
    ensures Starts(Label(f, typ))
    ensures ParseValue(Label(f, typ) + tail) ==
            if Jsonable(f, Ext(typ, [])) then Some(Parsed(LabelMeaning(f, typ), tail)) else None
  {
    if typ in f.extNames {
      RenderStarts(f, Str(BytesOf(f.extNames[typ])));
      QuotedParses(f, BytesOf(f.extNames[typ]), tail);
      BytesOfText(f.extNames[typ]);
    } else {
      RenderStarts(f, Int(typ));
      ParsesInt(typ, tail);
    }
  }

  lemma TwoItems(a: string, x: Json, b: string, y: Json, tail: string)
    requires Starts(a) && ParseValue(a + (", " + (b + ("]" + tail)))) == Some(Parsed(x, ", " + (b + ("]" + tail))))
    requires ParseValue(b + ("]" + tail)) == Some(Parsed(y, "]" + tail))
    ensures ParseArray(a + (", " + (b + ("]" + tail)))) == Some(Parsed(JArray([x, y]), tail))
  {
    var more := b + ("]" + tail);
    LastItem(more, Parsed(y, "]" + tail), tail);
    MoreItems(a + (", " + more), Parsed(x, ", " + more), more);
    assert [x] + [y] == [x, y];
    StartsArray(a + (", " + more));
  }

  lemma StartsArray(s: string)
    requires Starts(s)
    ensures ParseArray(s) == var r := ParseItems(s);
                             if r.None? then None else Some(Parsed(JArray(r.value.value), r.value.rest))
    ensures ParseItems(s) == None <== ParseValue(s) == None
  {
    assert SkipSpace(s) == s;
  }

  lemma ExtParses(f: Formats, typ: int, data: Bytes, tail: string)
    requires NameSpelled(f, typ)
    ensures ParseValue(RenderExt(f, typ, data) + tail) == Expected(f, Ext(typ, data), tail)
  {
    hide Label, LabelMeaning, ParseValue, ParseArray, ParseItems, HexString;
    var a, b := Label(f, typ), HexString(data);
    var s := a + (", " + (b + ("]" + tail)));
    assert RenderExt(f, typ, data) + tail == "[" + s;
    BracketValue(s);
    LabelParses(f, typ, ", " + (b + ("]" + tail)));
    HexQuotedParses(data, "]" + tail);
    StartsArray(s);
    if Jsonable(f, Ext(typ, [])) {
      TwoItems(a, LabelMeaning(f, typ), b, JString(HexText(data)), tail);
    }
  }

  /** The round trip: a rendered value parses back to its meaning, exactly when every string
      in it can be quoted in JSON and every object name is a string; otherwise not at all. */
  lemma {:induction false} ParsesRendering(f: Formats, v: Value, tail: string)
    requires Spelled(f, v) && Delimited(tail)
    ensures ParseValue(Render(f, v) + tail) == Expected(f, v, tail)
    decreases v, 1
  {
    match v
    case Nil =>
      LiteralParses("null", JNull, tail);
    case Bool(b) =>
      LiteralParses(if b then "true" else "false", JBool(b), tail);
    case Int(n) =>
      ParsesInt(n, tail);
    case Str(s) =>
      QuotedParses(f, s, tail);
    case Bin(s) =>
      HexQuotedParses(s, tail);
    case Timestamp(_, _) =>
      QuotedParses(f, TimeBytes(f, v), tail);
      BytesOfText(f.time(v.sec, v.nsec));
    case Ext(typ, data) =>
      ExtParses(f, typ, data, tail);
    case Arr(vs) =>
      ArrParses(f, vs, tail);
    case Map(es) =>
      MapParses(f, es, tail);
  }

  lemma LiteralParses(word: string, value: Json, tail: string)
    requires || (word == "null" && value == JNull)
             || (word == "true" && value == JBool(true))
             || (word == "false" && value == JBool(false))
    ensures ParseValue(word + tail) == Some(Parsed(value, tail))
  {
    var s := word + tail;
    assert SkipSpace(s) == s && word <= s && s[|word|..] == tail;
  }

  lemma {:induction false} ArrParses(f: Formats, vs: seq<Value>, tail: string)
    requires forall x :: x in vs ==> Spelled(f, x)
    ensures ParseValue("[" + RenderItems(f, vs, true) + "]" + tail) == Expected(f, Arr(vs), tail)
    decreases vs, 3
  {
    hide ParseValue, ParseItems, Render;
    var s := RenderItems(f, vs, true) + ("]" + tail);
    assert "[" + RenderItems(f, vs, true) + "]" + tail == "[" + s;
    BracketValue(s);
    if vs == [] {
      Empty("]" + tail);
      Singleton(']', tail);
      assert SkipSpace(s) == s;
    } else {
      ItemsParse(f, vs, tail);
      ItemsText(f, vs, "]" + tail);
      assert Spelled(f, vs[0]);
      RenderStarts(f, vs[0]);
      assert SkipSpace(s) == s;
    }
  }

  lemma ItemsText(f: Formats, vs: seq<Value>, x: string)
    requires vs != []
    ensures RenderItems(f, vs, true) + x == Render(f, vs[0]) + (RenderItems(f, vs[1..], false) + x)
    ensures RenderItems(f, vs, false) + x == ", " + (RenderItems(f, vs, true) + x)
  {
    var a, b := Render(f, vs[0]), RenderItems(f, vs[1..], false);
    assert "" + a + b + x == a + (b + x);
    assert ", " + a + b + x == ", " + ("" + a + b + x);
  }

  lemma EntryText(f: Formats, e: Entry)
    ensures RenderEntry(f, e) == Render(f, e.key) + ": " + Render(f, e.val)
  {}

  lemma FourParts(a: string, b: string, c: string, d: string)
    ensures a + b + c + d == a + (b + (c + d))
  {}

  lemma EntriesText(f: Formats, es: seq<Entry>, x: string)
    requires es != []
    ensures RenderEntries(f, es, true) + x ==
            Render(f, es[0].key) + (": " + (Render(f, es[0].val) + (RenderEntries(f, es[1..], false) + x)))
    ensures RenderEntries(f, es, false) + x == ", " + (RenderEntries(f, es, true) + x)
  {
    hide Render, RenderEntry;
    var a, b := RenderEntry(f, es[0]), RenderEntries(f, es[1..], false);
    Empty(a);
    Assoc(a, b, x);
    assert RenderEntry(f, es[0]) == Render(f, es[0].key) + ": " + Render(f, es[0].val) by {
      EntryText(f, es[0]);
    }
    FourParts(Render(f, es[0].key), ": ", Render(f, es[0].val), b + x);
    Assoc(", ", a + b, x);
    Assoc(", ", a, b);
  }

  lemma AllOf<T>(s: seq<T>, p: T -> bool)
    requires s != []
    ensures (forall x :: x in s ==> p(x)) <==> p(s[0]) && forall x :: x in s[1..] ==> p(x)
  {
    assert forall x :: x in s <==> x == s[0] || x in s[1..];
  }

  lemma {:induction false} ItemsParse(f: Formats, vs: seq<Value>, tail: string)
    requires vs != [] && forall x :: x in vs ==> Spelled(f, x)
    ensures ParseItems(RenderItems(f, vs, true) + ("]" + tail)) ==
            if forall x :: x in vs ==> Jsonable(f, x) then Some(Parsed(Meanings(f, vs), tail)) else None
    decreases vs, 2
  {
    var v, rest := vs[0], RenderItems(f, vs[1..], false) + ("]" + tail);
    var s := RenderItems(f, vs, true) + ("]" + tail);
    hide Jsonable, Spelled, Meaning, Render, ParseValue, ParseItems;
    ItemsText(f, vs, "]" + tail);
    AllOf(vs, x => Jsonable(f, x));
    if |vs| == 1 {
      Empty("]" + tail);
    } else {
      ItemsText(f, vs[1..], "]" + tail);
    }
    ParsesRendering(f, v, rest);
    if Jsonable(f, v) {
      if |vs| == 1 {
        LastItem(s, Parsed(Meaning(f, v), rest), tail);
        Empty([Meaning(f, v)]);
      } else {
        var more := RenderItems(f, vs[1..], true) + ("]" + tail);
        ItemsParse(f, vs[1..], tail);
        MoreItems(s, Parsed(Meaning(f, v), rest), more);
      }
    }
  }

  lemma ColonName(s: string, k: Parsed<string>, more: string)
    requires s != "" && s[0] == '\"' && ParseString(s[1..]) == Some(k) && k.rest == ": " + more
    ensures ParseName(s) == Some(Parsed(k.value, [' '] + more))
  {
    assert SkipSpace(s) == s && SkipSpace(k.rest) == k.rest;
    assert k.rest[1..] == [' '] + more;
  }

  lemma NameParses(f: Formats, key: Value, more: string)
    requires Spelled(f, key)
    ensures ParseName(Render(f, key) + (": " + more)) ==
            if (key.Str? || key.Bin? || key.Timestamp?) && Jsonable(f, key)
            then Some(Parsed(Meaning(f, key).s, [' '] + more)) else None
  {
    var s := Render(f, key) + (": " + more);
    RenderStarts(f, key);
    assert SkipSpace(s) == s;
    if key.Str? || key.Timestamp? {
      var text := if key.Str? then key.text else TimeBytes(f, key);
      QuoteParses(f, text, ": " + more);
      if key.Timestamp? {
        BytesOfText(f.time(key.sec, key.nsec));
      }
      if SafeText(text) {
        ColonName(s, Parsed(Text(text), ": " + more), more);
      }
    } else if key.Bin? {
      HexParses(key.data, ": " + more);
      ColonName(s, Parsed(HexText(key.data), ": " + more), more);
    }
  }

  lemma LastMember(s: string, k: Parsed<string>, v: Parsed<Json>, tail: string)
    requires ParseName(s) == Some(k) && ParseValue(k.rest) == Some(v) && v.rest == "}" + tail
    ensures ParseMembers(s) == Some(Parsed([Member(k.value, v.value)], tail))
  {
    Singleton('}', tail);
    assert SkipSpace(v.rest) == v.rest;
  }

  lemma SpaceBeforeMembers(s: string)
    ensures ParseMembers([' '] + s) == ParseMembers(s)
  {
    Singleton(' ', s);
    assert ParseName([' '] + s) == ParseName(s);
  }

  lemma MoreMembers(s: string, k: Parsed<string>, v: Parsed<Json>, more: string)
    requires ParseName(s) == Some(k) && ParseValue(k.rest) == Some(v) && v.rest == ", " + more
    ensures ParseMembers(s) == var r := ParseMembers(more);
                               if r.None? then None
                               else Some(Parsed([Member(k.value, v.value)] + r.value.value, r.value.rest))
  {
    assert SkipSpace(v.rest) == v.rest && v.rest[1..] == [' '] + more;
    SpaceBeforeMembers(more);
  }

  lemma {:induction false} MapParses(f: Formats, es: seq<Entry>, tail: string)
    requires forall e :: e in es ==> SpelledEntry(f, e)
    ensures ParseValue("{" + RenderEntries(f, es, true) + "}" + tail) == Expected(f, Map(es), tail)
    decreases es, 3
  {
    hide ParseValue, ParseMembers, Render;
    var s := RenderEntries(f, es, true) + ("}" + tail);
    assert "{" + RenderEntries(f, es, true) + "}" + tail == "{" + s;
    BracketValue(s);
    if es == [] {
      Empty("}" + tail);
      Singleton('}', tail);
      assert SkipSpace(s) == s;
    } else {
      MembersParse(f, es, tail);
      EntriesText(f, es, "}" + tail);
      assert SpelledEntry(f, es[0]) && Spelled(f, es[0].key);
      RenderStarts(f, es[0].key);
      assert SkipSpace(s) == s;
    }
  }

  lemma {:induction false} MembersParse(f: Formats, es: seq<Entry>, tail: string)
    requires es != [] && forall e :: e in es ==> SpelledEntry(f, e)
    ensures ParseMembers(RenderEntries(f, es, true) + ("}" + tail)) ==
            if forall e :: e in es ==> JsonableEntry(f, e) then Some(Parsed(MemberMeanings(f, es), tail)) else None
    decreases es, 2
  {
    var e, rest := es[0], RenderEntries(f, es[1..], false) + ("}" + tail);
    var s, val := RenderEntries(f, es, true) + ("}" + tail), Render(f, es[0].val) + rest;
    hide Jsonable, Spelled, Meaning, Render, RenderEntries, ParseValue, ParseName, ParseMembers;
    assert SpelledEntry(f, e);
    EntriesText(f, es, "}" + tail);
    AllOf(es, x => JsonableEntry(f, x));
    if |es| == 1 {
      Empty("}" + tail);
    } else {
      EntriesText(f, es[1..], "}" + tail);
    }
    NameParses(f, e.key, val);
    SpaceBeforeValue(val);
    EntryValueParses(f, e, rest);
    if JsonableEntry(f, e) {
      var k, v := Parsed(Meaning(f, e.key).s, [' '] + val), Parsed(Meaning(f, e.val), rest);
      if |es| == 1 {
        LastMember(s, k, v, tail);
        Empty([MemberMeaning(f, e)]);
      } else {
        var more := RenderEntries(f, es[1..], true) + ("}" + tail);
        MembersParse(f, es[1..], tail);
        MoreMembers(s, k, v, more);
      }
    }
  }

  lemma {:induction false} EntryValueParses(f: Formats, e: Entry, rest: string)
    requires SpelledEntry(f, e) && Delimited(rest)
    ensures ParseValue(Render(f, e.val) + rest) == Expected(f, e.val, rest)
    decreases e, 2
  {
    ParsesRendering(f, e.val, rest);
  }

  /** A whole JSON text is recognized exactly when the value is one JSON can express. */
  lemma RenderingIsJson(f: Formats, v: Value)
    requires Spelled(f, v)
    ensures Parse(Render(f, v)) == if Jsonable(f, v) then Some(Meaning(f, v)) else None
  {
    ParsesRendering(f, v, "");
    Empty(Render(f, v));
  }

  // ---------- which values look the same ----------

  /** Values made of nil, booleans, integers, strings, binary data, arrays and maps keyed by strings or
      binary data. */
  predicate Plain(v: Value)
    decreases v, 1
  {
    match v
    case Arr(vs) => forall x :: x in vs ==> Plain(x)
    case Map(es) => forall e :: e in es ==> PlainEntry(e)
    case _ => v.Nil? || v.Bool? || v.Int? || v.Str? || v.Bin?
  }

  predicate PlainEntry(e: Entry)
    decreases e, 0
  {
    (e.key.Str? || e.key.Bin?) && Plain(e.val)
  }

  /** Equal, but that a string may stand for the binary data it reads as. */
  predicate Alike(v: Value, w: Value)
    decreases v, 1
  {
    match v
    case Str(s) => w == v || (w.Bin? && Unhex(Text(s)) == Some(w.data))
    case Bin(s) => w == v || (w.Str? && Unhex(Text(w.text)) == Some(s))
    case Arr(vs) => w.Arr? && AlikeItems(vs, w.items)
    case Map(es) => w.Map? && AlikeEntries(es, w.entries)
    case _ => w == v
  }

  predicate AlikeItems(vs: seq<Value>, ws: seq<Value>)
    decreases vs, 0
  {
    if vs == [] then ws == []
    else ws != [] && Alike(vs[0], ws[0]) && AlikeItems(vs[1..], ws[1..])
  }

  predicate AlikeEntries(es: seq<Entry>, gs: seq<Entry>)
    decreases es, 0
  {
    if es == [] then gs == []
    else gs != [] && AlikeEntry(es[0], gs[0]) && AlikeEntries(es[1..], gs[1..])
  }

  predicate AlikeEntry(e: Entry, g: Entry)
    decreases e, 2
  {
    Alike(e.key, g.key) && Alike(e.val, g.val)
  }

  lemma TextInjective(s: Bytes, t: Bytes)
    requires Text(s) == Text(t)
    ensures s == t
  {
    assert |s| == |Text(s)| == |Text(t)| == |t|;
    forall i | 0 <= i < |s| ensures s[i] == t[i] {
      assert Text(s)[i] == Text(t)[i];
    }
  }

  lemma LeafMeaning(f: Formats, v: Value, w: Value)
    requires v.Str? || v.Bin?
    requires Plain(w)
    ensures Meaning(f, v) == Meaning(f, w) <==> Alike(v, w)
  {
    if w.Str? || w.Bin? {
      var a, b := Meaning(f, v).s, Meaning(f, w).s;
      if a == b && v.Str? && w.Str? {
        TextInjective(v.text, w.text);
      } else if Unhex(a).Some? && Unhex(a) == Unhex(b) {
        UnhexInjective(a, b);
      }
    }
  }

  lemma {:induction false} MeaningAlike(f: Formats, v: Value, w: Value)
    requires Plain(v) && Plain(w)
    ensures Meaning(f, v) == Meaning(f, w) <==> Alike(v, w)
    decreases v, 1
  {
    match v
    case Str(_) => LeafMeaning(f, v, w);
    case Bin(_) => LeafMeaning(f, v, w);
    case Arr(vs) =>
      if w.Arr? {
        MeaningsAlike(f, vs, w.items);
      }
    case Map(es) =>
      if w.Map? {
        MembersAlike(f, es, w.entries);
      }
    case _ =>
  }

  lemma {:induction false} MeaningsAlike(f: Formats, vs: seq<Value>, ws: seq<Value>)
    requires (forall x :: x in vs ==> Plain(x)) && (forall x :: x in ws ==> Plain(x))
    ensures Meanings(f, vs) == Meanings(f, ws) <==> AlikeItems(vs, ws)
    decreases vs, 0
  {
    hide Meaning, Alike, Plain;
    if vs != [] && ws != [] {
      MeaningAlike(f, vs[0], ws[0]);
      MeaningsAlike(f, vs[1..], ws[1..]);
      ConsEqual(Meaning(f, vs[0]), Meanings(f, vs[1..]), Meaning(f, ws[0]), Meanings(f, ws[1..]));
    }
  }

  lemma ConsEqual<T>(x: T, s: seq<T>, y: T, t: seq<T>)
    ensures [x] + s == [y] + t <==> x == y && s == t
  {
    Singleton(x, s);
    Singleton(y, t);
  }

  lemma {:induction false} MembersAlike(f: Formats, es: seq<Entry>, gs: seq<Entry>)
    requires (forall e :: e in es ==> PlainEntry(e)) && (forall e :: e in gs ==> PlainEntry(e))
    ensures MemberMeanings(f, es) == MemberMeanings(f, gs) <==> AlikeEntries(es, gs)
    decreases es, 0
  {
    hide MemberMeaning, AlikeEntry, PlainEntry;
    if es != [] && gs != [] {
      EntryAlike(f, es[0], gs[0]);
      MembersAlike(f, es[1..], gs[1..]);
      ConsEqual(MemberMeaning(f, es[0]), MemberMeanings(f, es[1..]),
                MemberMeaning(f, gs[0]), MemberMeanings(f, gs[1..]));
    }
  }

  lemma {:induction false} EntryAlike(f: Formats, e: Entry, g: Entry)
    requires PlainEntry(e) && PlainEntry(g)
    ensures MemberMeaning(f, e) == MemberMeaning(f, g) <==> AlikeEntry(e, g)
    decreases e, 2
  {
    LeafMeaning(f, e.key, g.key);
    MeaningAlike(f, e.val, g.val);
  }

  lemma {:induction false} HexQuotes(f: Formats, s: Bytes, data: Bytes)
    requires Unhex(Text(s)) == Some(data)
    ensures QuoteBody(f, s) == Text(s)
    decreases |s|
  {
    if s != [] {
      assert Text(s)[0] == s[0] as char && Text(s)[1] == s[1] as char && Text(s)[2..] == Text(s[2..]);
      HexQuotes(f, s[2..], data[1..]);
      HexQuotesOne(f, s);
      HexQuotesOne(f, s[1..]);
      assert s[1..][1..] == s[2..];
      assert Text(s) == [s[0] as char] + ([s[1] as char] + Text(s[2..]));
    }
  }

  lemma HexQuotesOne(f: Formats, s: Bytes)
    requires s != [] && HexValue(s[0] as char).Some?
    ensures QuoteBody(f, s) == [s[0] as char] + QuoteBody(f, s[1..])
  {}

  lemma AlikeLeaf(f: Formats, s: Bytes, data: Bytes)
    requires Unhex(Text(s)) == Some(data)
    ensures Quote(f, s) == HexString(data)
  {
    HexQuotes(f, s, data);
    HexIsText(data);
    UnhexInjective(Text(s), HexText(data));
  }

  lemma {:induction false} AlikeRenders(f: Formats, v: Value, w: Value)
    requires Alike(v, w)
    ensures Render(f, v) == Render(f, w)
    decreases v, 1
  {
    match v
    case Str(s) =>
      if w.Bin? {
        AlikeLeaf(f, s, w.data);
      }
    case Bin(s) =>
      if w.Str? {
        AlikeLeaf(f, w.text, s);
      }
    case Arr(vs) => AlikeItemsRender(f, vs, w.items, true);
    case Map(es) => AlikeEntriesRender(f, es, w.entries, true);
    case _ =>
  }

  lemma {:induction false} AlikeItemsRender(f: Formats, vs: seq<Value>, ws: seq<Value>, first: bool)
    requires AlikeItems(vs, ws)
    ensures RenderItems(f, vs, first) == RenderItems(f, ws, first)
    decreases vs, 0
  {
    hide Render, Alike;
    if vs != [] {
      AlikeRenders(f, vs[0], ws[0]);
      AlikeItemsRender(f, vs[1..], ws[1..], false);
    }
  }

  lemma {:induction false} AlikeEntriesRender(f: Formats, es: seq<Entry>, gs: seq<Entry>, first: bool)
    requires AlikeEntries(es, gs)
    ensures RenderEntries(f, es, first) == RenderEntries(f, gs, first)
    decreases es, 0
  {
    hide RenderEntry, AlikeEntry;
    if es != [] {
      AlikeEntryRenders(f, es[0], gs[0]);
      AlikeEntriesRender(f, es[1..], gs[1..], false);
    }
  }

  lemma {:induction false} AlikeEntryRenders(f: Formats, e: Entry, g: Entry)
    requires AlikeEntry(e, g)
    ensures RenderEntry(f, e) == RenderEntry(f, g)
    decreases e, 2
  {
    AlikeRenders(f, e.key, g.key);
    AlikeRenders(f, e.val, g.val);
  }

  /** Exactly the values that are alike have the same text. */
  lemma RenderAlike(f: Formats, v: Value, w: Value)
    requires Plain(v) && Spelled(f, v) && Jsonable(f, v)
    requires Plain(w) && Spelled(f, w) && Jsonable(f, w)
    ensures Render(f, v) == Render(f, w) <==> Alike(v, w)
  {
    hide Render, Alike, Meaning;
    RenderingIsJson(f, v);
    RenderingIsJson(f, w);
    MeaningAlike(f, v, w);
    if Alike(v, w) {
      AlikeRenders(f, v, w);
    }
  }

  /** Without binary data, or, if not strings, without strings. */
  predicate Either(v: Value, strings: bool)
    decreases v, 1
  {
    match v
    case Str(_) => strings
    case Bin(_) => !strings
    case Arr(vs) => forall x :: x in vs ==> Either(x, strings)
    case Map(es) => forall e :: e in es ==> EitherEntry(e, strings)
    case _ => true
  }

  predicate EitherEntry(e: Entry, strings: bool)
    decreases e, 0
  {
    Either(e.key, strings) && Either(e.val, strings)
  }

  lemma {:induction false} AlikeIsEqual(v: Value, w: Value, strings: bool)
    requires Alike(v, w) && Either(v, strings) && Either(w, strings)
    ensures v == w
    decreases v, 1
  {
    match v
    case Arr(vs) => AlikeItemsEqual(vs, w.items, strings);
    case Map(es) => AlikeEntriesEqual(es, w.entries, strings);
    case _ =>
  }

  lemma {:induction false} AlikeItemsEqual(vs: seq<Value>, ws: seq<Value>, strings: bool)
    requires AlikeItems(vs, ws)
    requires (forall x :: x in vs ==> Either(x, strings)) && (forall x :: x in ws ==> Either(x, strings))
    ensures vs == ws
    decreases vs, 0
  {
    hide Alike, Either;
    if vs != [] {
      AlikeIsEqual(vs[0], ws[0], strings);
      AlikeItemsEqual(vs[1..], ws[1..], strings);
      assert vs == [vs[0]] + vs[1..] && ws == [ws[0]] + ws[1..];
    }
  }

  lemma {:induction false} AlikeEntriesEqual(es: seq<Entry>, gs: seq<Entry>, strings: bool)
    requires AlikeEntries(es, gs)
    requires (forall e :: e in es ==> EitherEntry(e, strings)) && (forall e :: e in gs ==> EitherEntry(e, strings))
    ensures es == gs
    decreases es, 0
  {
    hide AlikeEntry, EitherEntry;
    if es != [] {
      AlikeEntryEqual(es[0], gs[0], strings);
      AlikeEntriesEqual(es[1..], gs[1..], strings);
      assert es == [es[0]] + es[1..] && gs == [gs[0]] + gs[1..];
    }
  }

  lemma {:induction false} AlikeEntryEqual(e: Entry, g: Entry, strings: bool)
    requires AlikeEntry(e, g) && EitherEntry(e, strings) && EitherEntry(g, strings)
    ensures e == g
    decreases e, 2
  {
    AlikeIsEqual(e.key, g.key, strings);
    AlikeIsEqual(e.val, g.val, strings);
  }

  /** No two values look the same, if both are without binary data, or both without strings. */
  lemma RenderInjective(f: Formats, v: Value, w: Value, strings: bool)
    requires Plain(v) && Spelled(f, v) && Jsonable(f, v) && Either(v, strings)
    requires Plain(w) && Spelled(f, w) && Jsonable(f, w) && Either(w, strings)
    requires Render(f, v) == Render(f, w)
    ensures v == w
  {
    RenderAlike(f, v, w);
    AlikeIsEqual(v, w, strings);
  }
}
