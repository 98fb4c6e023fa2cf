/** Inputs and outputs of the converter, spelled out. */
module MsgpackExamples {
  import opened Msgpack
  import opened MsgpackComplete
  import opened JsonRoundTrip
  import opened Sequences

  // ---------- pieces ----------

  /** Printable ASCII without quote and backslash. */
  predicate PlainText(s: Bytes) {
    forall i :: 0 <= i < |s| ==> 0x20 <= s[i] < 0x7f && s[i] != 34 && s[i] != 92
  }

  lemma {:induction false} PlainBody(f: Formats, s: Bytes)
    requires PlainText(s)
    ensures QuoteBody(f, s) == Text(s)
    decreases |s|
  {
    if s != [] {
      PlainBody(f, s[1..]);
      assert EscapeAscii(s[0]) == [s[0] as char];
      assert Text(s) == [s[0] as char] + Text(s[1..]);
    }
  }

  lemma StrNext(f: Formats, s: Bytes, tail: Bytes)
    requires |s| < 32 && PlainText(s)
    ensures DecodeNext(f, [0xa0 + |s|] + (s + tail)) == Done("\"" + Text(s) + "\"", tail)
  {
    var e := [0xa0 + |s|] + s;
    assert e[..1] == [0xa0 + |s|] && e[1..] == s;
    assert HeaderAt(StrKind, |s|, e, 1);
    BlobRead(f, StrKind, s, e, 1, tail);
    PlainBody(f, s);
    Assoc([0xa0 + |s|], s, tail);
  }

  lemma SmallNext(f: Formats, n: nat, tail: Bytes)
    requires n < 128
    ensures DecodeNext(f, [n] + tail) == Done(Decimal(n), tail)
  {
    DecodesInt(f, n, [n], tail);
  }

  lemma ArrNext(f: Formats, n: nat, bs: Bytes)
    requires n < 16
    ensures DecodeNext(f, [0x90 + n] + bs) == Close(DecodeItems(f, bs, n, true).After("["), "]")
  {
    Singleton(0x90 + n, bs);
    HeadDecodes(f, [0x90 + n] + bs, Container(ArrKind, n), bs);
  }

  lemma MapNext(f: Formats, n: nat, bs: Bytes)
    requires n < 16
    ensures DecodeNext(f, [0x80 + n] + bs) == Close(DecodeEntries(f, bs, n, true).After("{"), "}")
  {
    Singleton(0x80 + n, bs);
    HeadDecodes(f, [0x80 + n] + bs, Container(MapKind, n), bs);
  }

  lemma NoItems(f: Formats, bs: Bytes)
    ensures DecodeItems(f, bs, 0, false) == Done("", bs) && DecodeEntries(f, bs, 0, false) == Done("", bs)
  {}

  // ---------- values ----------

  /** An array of true, false and nil. */
  lemma Constants(f: Formats)
    ensures DecodeNext(f, [0x93] + ([0xc3] + ([0xc2] + ([0xc0] + []))))
            == Done("[" + ("true" + (", false" + ", null")) + "]", [])
  {
    var nil := [0xc0] + [];
    var no := [0xc2] + nil;
    var yes := [0xc3] + no;
    NoItems(f, []);
    DecodesConstant(f, 0xc3, no);
    DecodesConstant(f, 0xc2, nil);
    DecodesConstant(f, 0xc0, []);
    ArrNext(f, 3, yes);
    ConstantTexts();
    hide DecodeNext;
    ItemsStep(f, nil, 1, false, "null", [], "", []);
    ItemsStep(f, no, 2, false, "false", nil, ", null", []);
    ItemsStep(f, yes, 3, true, "true", no, ", false" + ", null", []);
    Empty("true");
  }

  lemma ConstantTexts()
    ensures ", " + "null" + "" == ", null" && ", " + "false" == ", false"
  {}

  const SCORE: Bytes := [0x73, 0x63, 0x6f, 0x72, 0x65]
  const TAGS: Bytes := [0x74, 0x61, 0x67, 0x73]
  const PRO: Bytes := [0x70, 0x72, 0x6f]
  const AI: Bytes := [0x61, 0x69]

  lemma Words()
    ensures Text(SCORE) == "score" && Text(TAGS) == "tags" && Text(PRO) == "pro" && Text(AI) == "ai"
    ensures PlainText(SCORE) && PlainText(TAGS) && PlainText(PRO) && PlainText(AI)
    ensures |SCORE| == 5 && |TAGS| == 4 && |PRO| == 3 && |AI| == 2
  {}

  lemma Quoted()
    ensures "\"" + "pro" + "\"" == "\"pro\"" && "\"" + "ai" + "\"" == "\"ai\"" && ", " + "\"ai\"" == ", \"ai\""
    ensures "\"" + "score" + "\"" == "\"score\"" && "\"" + "tags" + "\"" == "\"tags\""
  {}

  lemma TagList(f: Formats)
    ensures DecodeNext(f, [0x92] + ([0xa3] + (PRO + ([0xa2] + (AI + [])))))
            == Done("[" + ("\"pro\"" + ", \"ai\"") + "]", [])
  {
    Words();
    Quoted();
    var ai := [0xa2] + (AI + []);
    var pro := [0xa3] + (PRO + ai);
    StrNext(f, AI, []);
    StrNext(f, PRO, ai);
    ArrNext(f, 2, pro);
    NoItems(f, []);
    hide DecodeNext, PRO, AI, Text, PlainText;
    ItemsStep(f, ai, 1, false, "\"ai\"", [], "", []);
    Empty(", \"ai\"");
    ItemsStep(f, pro, 2, true, "\"pro\"", ai, ", \"ai\"", []);
    Empty("\"pro\"");
  }

  /** A map of score to 100 and tags to a list of two words. */
  lemma Nested(f: Formats)
    ensures var bytes := [0xa4] + (TAGS + ([0x92] + ([0xa3] + (PRO + ([0xa2] + (AI + []))))));
            DecodeNext(f, [0x82] + ([0xa5] + (SCORE + ([100] + bytes))))
            == Done("{" + (("\"score\"" + ": " + "100")
                           + (", " + ("\"tags\"" + ": " + ("[" + ("\"pro\"" + ", \"ai\"") + "]")))) + "}", [])
  {
    Words();
    Quoted();
    var list := [0x92] + ([0xa3] + (PRO + ([0xa2] + (AI + []))));
    var tags := [0xa4] + (TAGS + list);
    var hundred := [100] + tags;
    var score := [0xa5] + (SCORE + hundred);
    StrNext(f, SCORE, hundred);
    SmallNext(f, 100, tags);
    StrNext(f, TAGS, list);
    TagList(f);
    MapNext(f, 2, score);
    NoItems(f, []);
    Hundred();
    hide DecodeNext, SCORE, TAGS, PRO, AI, Decimal, Text, PlainText;
    var texts := "[" + ("\"pro\"" + ", \"ai\"") + "]";
    EntriesStep(f, tags, 1, false, "\"tags\"", list, texts, [], "", []);
    var more := ", " + ("\"tags\"" + ": " + texts);
    Empty(more);
    EntriesStep(f, score, 2, true, "\"score\"", hundred, "100", tags, more, []);
    Empty("\"score\"" + ": " + "100");
  }

  lemma Hundred()
    ensures Decimal(100) == "100"
  {
    assert Natural(1) == "1" && Natural(10) == "10";
  }

  /** An extension of type 1, when that type has a name, and when it has none. */
  lemma Coffee(f: Formats)
    requires 1 in f.extNames && f.extNames[1] == "coffee"
    ensures DecodeNext(f, [0xd5, 0x01, 0xca, 0xfe]) == Done("[" + "\"coffee\"" + ", " + "\"cafe\"" + "]", [])
  {
    CoffeeName(f);
    Cafe();
    hide DecodeNext, HexString, Quote, Hex, BytesOf;
    CoffeeBytes(f);
  }

  lemma Unnamed(f: Formats)
    requires 1 !in f.extNames
    ensures DecodeNext(f, [0xd5, 0x01, 0xca, 0xfe]) == Done("[" + "1" + ", " + "\"cafe\"" + "]", [])
  {
    DecimalOne();
    Cafe();
    hide DecodeNext, HexString, Quote, Hex, BytesOf, Decimal;
    CoffeeBytes(f);
  }

  lemma DecimalOne()
    ensures Decimal(1) == "1"
  {}

  lemma Cafe()
    ensures HexString([0xca, 0xfe]) == "\"cafe\""
  {
    assert Hex([0xfe]) == "fe" by {
      assert Hex([]) == "";
    }
    assert [0xca, 0xfe][1..] == [0xfe];
    assert Hex([0xca, 0xfe]) == "ca" + "fe";
  }

  lemma CoffeeName(f: Formats)
    ensures Quote(f, BytesOf("coffee")) == "\"coffee\""
  {
    var s := BytesOf("coffee");
    assert PlainText(s);
    BytesOfText("coffee");
    hide BytesOf, PlainText, Text, QuoteBody;
    PlainBody(f, s);
    assert "\"" + "coffee" + "\"" == "\"coffee\"";
  }

  lemma CoffeeBytes(f: Formats)
    ensures DecodeNext(f, [0xd5, 0x01, 0xca, 0xfe]) == Done(RenderExt(f, 1, [0xca, 0xfe]), [])
  {
    var bs: Bytes := [0xd5, 0x01, 0xca, 0xfe];
    HeadDecodes(f, bs, Container(ExtKind, 2), bs[1..]);
    assert bs[1..] == [Unsigned(1, 1)] + [0xca, 0xfe] + [];
    ExtDecoded(f, 1, [0xca, 0xfe], []);
  }

  /** Two's complement, and the high byte first. */
  lemma Numbers(f: Formats)
    ensures DecodeNext(f, [0xd0] + [0x80]) == Done("-128", []) && DecodeNext(f, [0xe0]) == Done("-32", [])
    ensures DecodeNext(f, [0xd1] + [0xff, 0xfe]) == Done("-2", [])
    ensures DecodeNext(f, [0xcd] + [0x01, 0x02]) == Done("258", [])
  {
    NumberTexts();
    HeadDecodes(f, [0xe0], Number(-32), []);
    NumberValues();
    hide *;
    WideNumber(f, 0xd0, [0x80]);
    WideNumber(f, 0xd1, [0xff, 0xfe]);
    WideNumber(f, 0xcd, [0x01, 0x02]);
  }

  lemma NumberValues()
    ensures ShapeOf(0xd0) == IntIn(1) && WithNumber(ShapeOf(0xd0), FromBigEndian([0x80])).n == -128
    ensures ShapeOf(0xd1) == IntIn(2) && WithNumber(ShapeOf(0xd1), FromBigEndian([0xff, 0xfe])).n == -2
    ensures ShapeOf(0xcd) == UintIn(2) && WithNumber(ShapeOf(0xcd), FromBigEndian([0x01, 0x02])).n == 258
  {
    OneByte(0x80);
    TwoBytes(0xff, 0xfe);
    TwoBytes(0x01, 0x02);
    hide FromBigEndian;
    assert Pow256(0) == 1 && Pow256(1) == 256 && Pow256(2) == 65536;
  }

  lemma WideNumber(f: Formats, p: Byte, bs: Bytes)
    requires (ShapeOf(p).UintIn? || ShapeOf(p).IntIn?) && |bs| == ShapeOf(p).width
    ensures DecodeNext(f, [p] + bs) == Done(Decimal(WithNumber(ShapeOf(p), FromBigEndian(bs)).n), [])
  {
    Singleton(p, bs);
    ReadExact(bs, []);
    Empty(bs);
    HeadDecodes(f, [p] + bs, WithNumber(ShapeOf(p), FromBigEndian(bs)), []);
  }

  lemma NumberTexts()
    ensures Decimal(-128) == "-128" && Decimal(-2) == "-2" && Decimal(-32) == "-32" && Decimal(258) == "258"
  {
    assert Natural(1) == "1" && Natural(12) == "12" && Natural(25) == "25";
  }

  lemma OneByte(a: Byte)
    ensures FromBigEndian([a]) == a
  {
    assert [a][..0] == [];
  }

  lemma TwoBytes(a: Byte, b: Byte)
    ensures FromBigEndian([a, b]) == a * 256 + b
  {
    assert [a, b][..1] == [a];
    OneByte(a);
  }

  /** Floats are handed on by width and bits. */
  lemma Floats(f: Formats, bits: nat, e: Bytes, tail: Bytes)
    ensures Sized(0xca, 4, bits, e) ==> DecodeNext(f, e + tail) == Done(f.float(4, bits), tail)
    ensures Sized(0xcb, 8, bits, e) ==> DecodeNext(f, e + tail) == Done(f.float(8, bits), tail)
  {
    if Sized(0xca, 4, bits, e) {
      DecodesFloat(f, 4, bits, e, tail);
    }
    if Sized(0xcb, 8, bits, e) {
      DecodesFloat(f, 8, bits, e, tail);
    }
  }

  /** Timestamps of 4, 8 and 12 bytes: seconds; 30 bits of nanoseconds and 34 of seconds; nanoseconds and
      signed seconds. */
  lemma Timestamps(f: Formats)
    ensures TimeOf([0, 0, 0, 5]) == (5, 0)
    ensures TimeOf([0, 0, 0, 9] + [0, 0, 0, 5]) == (0x1_0000_0005, 2)
    ensures TimeOf([0, 0, 0, 7] + ([0xff, 0xff, 0xff, 0xff] + [0xff, 0xff, 0xff, 0xfe])) == (-2, 7)
    ensures TimeOf([0, 0, 0, 7] + ([0, 0, 0, 1] + [0, 0, 0, 5])) == (0x1_0000_0005, 7)
  {
    hide FromBigEndian;
    FourBytes(0, 0, 0, 5);
    FourBytes(0, 0, 0, 9);
    FourBytes(0, 0, 0, 7);
    FourBytes(0, 0, 0, 1);
    FourBytes(0xff, 0xff, 0xff, 0xff);
    FourBytes(0xff, 0xff, 0xff, 0xfe);
    EightBytes([0, 0, 0, 9], [0, 0, 0, 5]);
    EightBytes([0, 0, 0, 1], [0, 0, 0, 5]);
    EightBytes([0xff, 0xff, 0xff, 0xff], [0xff, 0xff, 0xff, 0xfe]);
    assert Pow256(8) == 0x1_0000_0000_0000_0000 by {
      assert Pow256(0) == 1 && Pow256(1) == 256 && Pow256(2) == 0x1_0000 && Pow256(4) == 0x1_0000_0000;
    }
    hide Pow256;
    TwelveBytes([0, 0, 0, 7], [0xff, 0xff, 0xff, 0xff] + [0xff, 0xff, 0xff, 0xfe]);
    TwelveBytes([0, 0, 0, 7], [0, 0, 0, 1] + [0, 0, 0, 5]);
  }

  lemma TwelveBytes(a: Bytes, b: Bytes)
    requires |a| == 4 && |b| == 8
    ensures TimeOf(a + b) == (Signed(FromBigEndian(b), 8), FromBigEndian(a))
  {
    ShortenedTo(a, b);
  }

  lemma FourBytes(a: Byte, b: Byte, c: Byte, d: Byte)
    ensures FromBigEndian([a, b, c, d]) == ((a * 256 + b) * 256 + c) * 256 + d
  {
    TwoBytes(a, b);
    assert [a, b, c][..2] == [a, b] && [a, b, c, d][..3] == [a, b, c];
    assert FromBigEndian([a, b, c]) == FromBigEndian([a, b]) * 256 + c;
  }

  lemma EightBytes(a: Bytes, b: Bytes)
    requires |a| == 4 && |b| == 4
    ensures FromBigEndian(a + b) == FromBigEndian(a) * 0x1_0000_0000 + FromBigEndian(b)
  {
    var b0, b1, b2, b3 := b[0], b[1], b[2], b[3];
    FourBytes(b0, b1, b2, b3);
    assert b == [b0, b1, b2, b3];
    Snoc(a, b0);
    Snoc(a + [b0], b1);
    Snoc(a + [b0] + [b1], b2);
    Snoc(a + [b0] + [b1] + [b2], b3);
    assert a + b == a + [b0] + [b1] + [b2] + [b3];
  }

  lemma Snoc(a: Bytes, b: Byte)
    ensures FromBigEndian(a + [b]) == FromBigEndian(a) * 256 + b
  {
    assert (a + [b])[..|a|] == a;
  }

  /** A timestamp is printed as the quoted text of its time. */
  lemma TimePrinted(f: Formats, data: Bytes, tail: Bytes)
    requires |data| == 4
    ensures DecodeNext(f, [0xd6] + ([0xff] + data + tail))
            == Done(Quote(f, BytesOf(f.time(FromBigEndian(data), 0))), tail)
  {
    var body := [0xff] + data + tail;
    Singleton(0xd6, body);
    HeadDecodes(f, [0xd6] + body, Container(ExtKind, 4), body);
    ExtDecoded(f, -1, data, tail);
    assert Unsigned(-1, 1) == 0xff;
  }

  // ---------- failures ----------

  /** A byte that begins no value, and a string that ends too soon. */
  lemma Failures(f: Formats, rest: Bytes)
    ensures DecodeNext(f, [0xc1] + rest) == Fail("", rest, UnknownPrefix(0xc1))
    ensures DecodeNext(f, [0xa2, 0x61]) == Fail("", [], UnexpectedEOF)
  {
    Singleton(0xc1, rest);
    UnknownDecodes(f, [0xc1] + rest);
    assert [0xa2, 0x61][1..] == [0x61];
    HeadDecodes(f, [0xa2, 0x61], Container(StrKind, 2), [0x61]);
  }

  lemma UnknownDecodes(f: Formats, bs: Bytes)
    requires bs != [] && bs[0] == 0xc1
    ensures DecodeNext(f, bs) == Fail("", bs[1..], UnknownPrefix(0xc1))
  {}

  /** A timestamp has 4, 8 or 12 bytes; any other number of them is an error. */
  lemma OddTimestamp(f: Formats, n: nat, data: Bytes, tail: Bytes)
    requires |data| == n < 256 && n != 4 && n != 8 && n != 12
    ensures DecodeNext(f, [0xc7, n] + ([0xff] + data + tail)) == Fail("", tail, BadTimestamp(n))
  {
    var bs, body := [0xc7, n] + ([0xff] + data + tail), [0xff] + data + tail;
    assert bs[0] == 0xc7 && bs[1..] == [n] + body;
    ReadExact([n], body);
    OneByte(n);
    HeadDecodes(f, bs, Container(ExtKind, n), body);
    ExtDecoded(f, -1, data, tail);
    assert Unsigned(-1, 1) == 0xff;
  }

  /** A map cut before a value, and one cut between entries: what was written by then. */
  lemma CutMaps(f: Formats)
    ensures DecodeNext(f, [0x81] + ([1] + [])) == Fail("{" + ("1" + ": "), [], EOF)
    ensures DecodeNext(f, [0x82] + ([1] + ([2] + []))) == Fail("{" + (("1" + ": " + "2") + ", "), [], EOF)
  {
    SmallNext(f, 1, []);
    SmallNext(f, 1, [2] + []);
    SmallNext(f, 2, []);
    MapNext(f, 1, [1] + []);
    MapNext(f, 2, [1] + ([2] + []));
    assert DecodeNext(f, []) == Fail("", [], EOF);
    assert Decimal(1) == "1" && Decimal(2) == "2";
    hide DecodeNext, Decimal;
    assert DecodeEntries(f, [], 1, false) == Fail(", " + "", [], EOF);
    assert "" + "1" == "1" && ", " + "" == ", " && "1" + ": " + "" == "1" + ": ";
    assert DecodeEntries(f, [1] + [], 1, true) == Fail("1" + ": ", [], EOF);
    assert DecodeEntries(f, [1] + ([2] + []), 2, true) == Fail(("1" + ": " + "2") + ", ", [], EOF);
  }
}
