/** Every legal encoding of a value is decoded to that value's text, whatever follows it. */
module MsgpackComplete {
  import opened Msgpack
  import opened Sequences

  // ---------- numbers ----------

  lemma {:induction false} BigEndianInverse(n: nat, w: nat)
    requires n < Pow256(w)
    ensures FromBigEndian(BigEndian(n, w)) == n
  {
    if w != 0 {
      BigEndianInverse(n / 256, w - 1);
      assert BigEndian(n, w)[..w - 1] == BigEndian(n / 256, w - 1);
    }
  }

  lemma {:induction false} FromBigEndianInverse(bs: Bytes)
    ensures FromBigEndian(bs) < Pow256(|bs|)
    ensures BigEndian(FromBigEndian(bs), |bs|) == bs
  {
    if bs != [] {
      FromBigEndianInverse(bs[..|bs| - 1]);
    }
  }

  lemma SignedInverse(n: int, w: nat)
    requires FitsSigned(n, w)
    ensures 0 <= Unsigned(n, w) < Pow256(w)
    ensures Signed(Unsigned(n, w), w) == n
  {}

  lemma UnsignedInverse(n: nat, w: nat)
    requires n < Pow256(w)
    ensures FitsSigned(Signed(n, w), w)
    ensures Unsigned(Signed(n, w), w) == n
  {}

  // ---------- heads ----------

  lemma ReadExact(bs: Bytes, tail: Bytes)
    ensures ReadUint(bs + tail, |bs|) == FromBigEndian(bs)
    ensures Skip(bs + tail, |bs|) == tail
  {
    assert (bs + tail)[..|bs|] == bs;
    assert (bs + tail)[|bs|..] == tail;
  }

  lemma SizedRead(prefix: Byte, w: nat, n: nat, h: Bytes, tail: Bytes)
    requires Sized(prefix, w, n, h)
    ensures h[0] == prefix
    ensures ReadUint(h[1..] + tail, w) == n && Skip(h[1..] + tail, w) == tail
  {
    BigEndianInverse(n, w);
    ReadExact(BigEndian(n, w), tail);
    assert h[1..] == BigEndian(n, w);
  }

  lemma HeaderForm(kind: Kind, n: nat, h: Bytes)
    requires Header(kind, n, h)
    ensures h != []
    ensures |h| == 1 ==> ShapeOf(h[0]) == Fixed(Container(kind, n))
    ensures |h| > 1 ==> Sized(h[0], |h| - 1, n, h) && ShapeOf(h[0]) == SizeIn(kind, |h| - 1)
  {}

  lemma HeaderRead(kind: Kind, n: nat, h: Bytes, tail: Bytes)
    requires Header(kind, n, h)
    ensures h != [] && ReadHead(h[0], h[1..] + tail) == (Container(kind, n), tail)
  {
    HeaderForm(kind, n, h);
    if |h| == 1 {
      assert h[1..] + tail == tail;
    } else {
      SizedRead(h[0], |h| - 1, n, h, tail);
    }
  }

  lemma IntForm(n: int, e: Bytes)
    requires EncodesInt(n, e)
    ensures e != []
    ensures |e| == 1 ==> ShapeOf(e[0]) == Fixed(Number(n))
    ensures |e| > 1 ==>
              || (ShapeOf(e[0]) == UintIn(|e| - 1) && n >= 0 && Sized(e[0], |e| - 1, n, e))
              || (ShapeOf(e[0]) == IntIn(|e| - 1) && SizedInt(e[0], |e| - 1, n, e))
  {
    hide Pow256;
  }

  lemma IntRead(n: int, e: Bytes, tail: Bytes)
    requires EncodesInt(n, e)
    ensures e != [] && ReadHead(e[0], e[1..] + tail) == (Number(n), tail)
  {
    IntForm(n, e);
    if |e| == 1 {
      assert e[1..] + tail == tail;
    } else if ShapeOf(e[0]).UintIn? {
      SizedRead(e[0], |e| - 1, n, e, tail);
    } else {
      SignedInverse(n, |e| - 1);
      SizedRead(e[0], |e| - 1, Unsigned(n, |e| - 1), e, tail);
    }
  }

  // ---------- blobs and extensions ----------

  lemma BlobRead(f: Formats, kind: Kind, s: Bytes, e: Bytes, k: nat, tail: Bytes)
    requires kind.StrKind? || kind.BinKind?
    requires HeaderAt(kind, |s|, e, k) && e[k..] == s
    ensures DecodeNext(f, e + tail) == Done(if kind.StrKind? then Quote(f, s) else HexString(s), tail)
  {
    HeaderThen(kind, |s|, e, k, tail);
    ShortenedTo(s, tail);
    HeadDecodes(f, e + tail, Container(kind, |s|), s + tail);
  }

  lemma HeaderThen(kind: Kind, n: nat, e: Bytes, k: nat, tail: Bytes)
    requires HeaderAt(kind, n, e, k)
    ensures e != [] && (e + tail)[0] == e[0]
    ensures ReadHead(e[0], (e + tail)[1..]) == (Container(kind, n), e[k..] + tail)
  {
    HeaderRead(kind, n, e[..k], e[k..] + tail);
    Regroup(e, k, tail);
    Uncons(e[..k], e[k..] + tail);
  }

  lemma TimeRead(sec: int, nsec: int, data: Bytes)
    requires EncodesTime(sec, nsec, data)
    ensures |data| == 4 || |data| == 8 || |data| == 12
    ensures TimeOf(data) == (sec, nsec)
  {
    hide FromBigEndian, BigEndian;
    if |data| == 4 {
      BigEndianInverse(sec, 4);
    } else if |data| == 8 {
      BigEndianInverse(nsec * 0x4_0000_0000 + sec, 8);
    } else {
      BigEndianInverse(nsec, 4);
      SignedInverse(sec, 8);
      BigEndianInverse(Unsigned(sec, 8), 8);
      ShortenedTo(BigEndian(nsec, 4), BigEndian(Unsigned(sec, 8), 8));
    }
  }

  lemma ExtRead(f: Formats, typ: int, data: Bytes, e: Bytes, tail: Bytes)
    requires -128 <= typ < 128 && EncodesExt(typ, data, e)
    ensures e != []
    ensures DecodeNext(f, e + tail) == DecodeExt(f, |data|, [Unsigned(typ, 1)] + data + tail)
    ensures Signed(Unsigned(typ, 1), 1) == typ
  {
    var k: nat :| HeaderAt(ExtKind, |data|, e, k) && e[k..] == [if typ < 0 then typ + 256 else typ] + data;
    HeaderThen(ExtKind, |data|, e, k, tail);
    SignedInverse(typ, 1);
  }

  lemma ExtDecoded(f: Formats, typ: int, data: Bytes, tail: Bytes)
    requires -128 <= typ < 128
    ensures DecodeExt(f, |data|, [Unsigned(typ, 1)] + data + tail) ==
            if typ != -1 then Done(RenderExt(f, typ, data), tail)
            else if |data| == 4 || |data| == 8 || |data| == 12
            then Done(RenderTime(f, TimeOf(data).0, TimeOf(data).1), tail)
            else Fail("", tail, BadTimestamp(|data|))
  {
    SignedInverse(typ, 1);
    var bs := [Unsigned(typ, 1)] + data + tail;
    assert bs[1..] == data + tail;
    assert bs[1..][..|data|] == data && bs[1..][|data|..] == tail;
  }

  // ---------- the main result ----------

  lemma HeadDecodes(f: Formats, bs: Bytes, head: Head, rest: Bytes)
    requires bs != [] && ReadHead(bs[0], bs[1..]) == (head, rest)
    ensures head.Container? ==> DecodeNext(f, bs) == Body(f, head.kind, head.size, rest)
    ensures !head.Container? && !head.Unknown? ==> DecodeNext(f, bs) == Done(ScalarText(f, head), rest)
  {}

  lemma DecodesInt(f: Formats, n: int, e: Bytes, tail: Bytes)
    requires EncodesInt(n, e)
    ensures DecodeNext(f, e + tail) == Done(Decimal(n), tail)
  {
    IntRead(n, e, tail);
    Uncons(e, tail);
    HeadDecodes(f, e + tail, Number(n), tail);
  }

  lemma DecodesFloat(f: Formats, w: nat, bits: nat, e: Bytes, tail: Bytes)
    requires (w == 4 && Sized(0xca, 4, bits, e)) || (w == 8 && Sized(0xcb, 8, bits, e))
    ensures DecodeNext(f, e + tail) == Done(f.float(w, bits), tail)
  {
    SizedRead(e[0], w, bits, e, tail);
    Uncons(e, tail);
    HeadDecodes(f, e + tail, Real(w, bits), tail);
  }

  lemma DecodesConstant(f: Formats, p: Byte, tail: Bytes)
    requires p == 0xc0 || p == 0xc2 || p == 0xc3
    ensures DecodeNext(f, [p] + tail) ==
            Done(if p == 0xc0 then "null" else if p == 0xc2 then "false" else "true", tail)
  {
    Uncons([p], tail);
    assert [p][1..] + tail == tail;
  }

  lemma DecodesArr(f: Formats, n: nat, e: Bytes, k: nat, text: string, tail: Bytes)
    requires HeaderAt(ArrKind, n, e, k)
    requires DecodeItems(f, e[k..] + tail, n, true) == Done(text, tail)
    ensures DecodeNext(f, e + tail) == Done("[" + text + "]", tail)
  {
    HeaderThen(ArrKind, n, e, k, tail);
    HeadDecodes(f, e + tail, Container(ArrKind, n), e[k..] + tail);
  }

  lemma DecodesMap(f: Formats, n: nat, e: Bytes, k: nat, text: string, tail: Bytes)
    requires HeaderAt(MapKind, n, e, k)
    requires DecodeEntries(f, e[k..] + tail, n, true) == Done(text, tail)
    ensures DecodeNext(f, e + tail) == Done("{" + text + "}", tail)
  {
    HeaderThen(MapKind, n, e, k, tail);
    HeadDecodes(f, e + tail, Container(MapKind, n), e[k..] + tail);
  }

  lemma DecodesExtension(f: Formats, v: Value, e: Bytes, tail: Bytes)
    requires v.Timestamp? || v.Ext?
    requires Encodes(v, e)
    ensures DecodeNext(f, e + tail) == Done(Render(f, v), tail)
  {
    if v.Ext? {
      ExtRead(f, v.typ, v.payload, e, tail);
      ExtDecoded(f, v.typ, v.payload, tail);
    } else {
      var data: Bytes :| EncodesTime(v.sec, v.nsec, data) && EncodesExt(-1, data, e);
      ExtRead(f, -1, data, e, tail);
      TimeRead(v.sec, v.nsec, data);
      ExtDecoded(f, -1, data, tail);
    }
  }

  lemma {:induction false} DecodesEncoding(f: Formats, v: Value, e: Bytes, tail: Bytes)
    requires Encodes(v, e)
    ensures DecodeNext(f, e + tail) == Done(Render(f, v), tail)
    decreases v, 1
  {
    match v
    case Str(s) =>
      var k: nat :| HeaderAt(StrKind, |s|, e, k) && e[k..] == s;
      BlobRead(f, StrKind, s, e, k, tail);
    case Bin(s) =>
      var k: nat :| HeaderAt(BinKind, |s|, e, k) && e[k..] == s;
      BlobRead(f, BinKind, s, e, k, tail);
    case Arr(vs) =>
      var k: nat :| HeaderAt(ArrKind, |vs|, e, k) && EncodesItems(vs, e[k..]);
      DecodesItems(f, vs, e[k..], tail, true);
      DecodesArr(f, |vs|, e, k, RenderItems(f, vs, true), tail);
    case Map(es) =>
      var k: nat :| HeaderAt(MapKind, |es|, e, k) && EncodesEntries(es, e[k..]);
      DecodesEntries(f, es, e[k..], tail, true);
      DecodesMap(f, |es|, e, k, RenderEntries(f, es, true), tail);
    case Timestamp(_, _) => DecodesExtension(f, v, e, tail);
    case Ext(_, _) => DecodesExtension(f, v, e, tail);
    case Int(n) => DecodesInt(f, n, e, tail);
    case Float(w, bits) => DecodesFloat(f, w, bits, e, tail);
    case _ => DecodesConstant(f, e[0], tail);
  }

  lemma ItemsStep(f: Formats, bs: Bytes, n: nat, first: bool, out: string, rest: Bytes, more: string, tail: Bytes)
    requires n > 0 && DecodeNext(f, bs) == Done(out, rest)
    requires DecodeItems(f, rest, n - 1, false) == Done(more, tail)
    ensures DecodeItems(f, bs, n, first) == Done(Separator(first) + out + more, tail)
  {}

  lemma {:induction false} DecodesItems(f: Formats, vs: seq<Value>, e: Bytes, tail: Bytes, first: bool)
    requires EncodesItems(vs, e)
    ensures DecodeItems(f, e + tail, |vs|, first) == Done(RenderItems(f, vs, first), tail)
    decreases vs, 0
  {
    if vs == [] {
      assert e + tail == tail;
    } else {
      var k: nat :| k <= |e| && Encodes(vs[0], e[..k]) && EncodesItems(vs[1..], e[k..]);
      DecodesEncoding(f, vs[0], e[..k], e[k..] + tail);
      DecodesItems(f, vs[1..], e[k..], tail, false);
      Regroup(e, k, tail);
      ItemsStep(f, e + tail, |vs|, first, Render(f, vs[0]), e[k..] + tail, RenderItems(f, vs[1..], false), tail);
    }
  }

  lemma EntriesStep(f: Formats, bs: Bytes, n: nat, first: bool, key: string, mid: Bytes, val: string, rest: Bytes,
                    more: string, tail: Bytes)
    requires n > 0 && DecodeNext(f, bs) == Done(key, mid) && DecodeNext(f, mid) == Done(val, rest)
    requires DecodeEntries(f, rest, n - 1, false) == Done(more, tail)
    ensures DecodeEntries(f, bs, n, first) == Done(Separator(first) + (key + ": " + val) + more, tail)
  {
    Reassociate(Separator(first), key, ": ", val);
  }

  lemma {:induction false} DecodesEntries(f: Formats, es: seq<Entry>, e: Bytes, tail: Bytes, first: bool)
    requires EncodesEntries(es, e)
    ensures DecodeEntries(f, e + tail, |es|, first) == Done(RenderEntries(f, es, first), tail)
    decreases es, 0
  {
    if es == [] {
      assert e + tail == tail;
    } else {
      var k: nat, m: nat :| k <= m <= |e| && EncodesEntry(es[0], e[..k], e[k..m]) && EncodesEntries(es[1..], e[m..]);
      var rest := e[m..] + tail;
      var mid := e[k..m] + rest;
      RegroupTwice(e, k, m, tail);
      DecodesEntry(f, es[0], e[..k], e[k..m], rest);
      DecodesEntries(f, es[1..], e[m..], tail, false);
      EntriesStep(f, e[..k] + mid, |es|, first, Render(f, es[0].key), mid, Render(f, es[0].val), rest,
                  RenderEntries(f, es[1..], false), tail);
    }
  }

  lemma {:induction false} DecodesEntry(f: Formats, x: Entry, key: Bytes, val: Bytes, tail: Bytes)
    requires EncodesEntry(x, key, val)
    ensures DecodeNext(f, key + (val + tail)) == Done(Render(f, x.key), val + tail)
    ensures DecodeNext(f, val + tail) == Done(Render(f, x.val), tail)
    decreases x, 2
  {
    DecodesEncoding(f, x.key, key, val + tail);
    DecodesEncoding(f, x.val, val, tail);
  }

  /** No legal encoding is a proper prefix of another, and equal bytes have one text. */
  lemma EncodingsArePrefixFree(f: Formats, v: Value, e: Bytes, v': Value, e': Bytes, t: Bytes, t': Bytes)
    requires Encodes(v, e) && Encodes(v', e') && e + t == e' + t'
    ensures e == e' && t == t' && Render(f, v) == Render(f, v')
  {
    DecodesEncoding(f, v, e, t);
    DecodesEncoding(f, v', e', t');
    assert |e| == |e'|;
    assert e == (e + t)[..|e|] && e' == (e' + t')[..|e'|];
  }

  // ---------- streams ----------

  function Lines(f: Formats, vs: seq<Value>): string {
    if vs == [] then "" else Render(f, vs[0]) + "\n" + Lines(f, vs[1..])
  }

  lemma ConvertStep(f: Formats, bs: Bytes, out: string, rest: Bytes, lines: string, more: Converted)
    requires DecodeNext(f, bs) == Done(out, rest) && Convert(f, rest) == more.After(lines)
    ensures Convert(f, bs) == more.After(out + "\n" + lines)
  {
    assert out + "\n" + (lines + more.out) == out + "\n" + lines + more.out;
  }

  /** A stream of encodings converts to one line per value, in order; what follows them
      does not matter for those lines. */
  lemma {:induction false} ConvertsStream(f: Formats, vs: seq<Value>, e: Bytes, tail: Bytes)
    requires EncodesItems(vs, e)
    ensures Convert(f, e + tail) == Convert(f, tail).After(Lines(f, vs))
  {
    if vs == [] {
      assert e + tail == tail;
    } else {
      var k: nat :| k <= |e| && Encodes(vs[0], e[..k]) && EncodesItems(vs[1..], e[k..]);
      DecodesEncoding(f, vs[0], e[..k], e[k..] + tail);
      ConvertsStream(f, vs[1..], e[k..], tail);
      Regroup(e, k, tail);
      ConvertStep(f, e[..k] + (e[k..] + tail), Render(f, vs[0]), e[k..] + tail, Lines(f, vs[1..]), Convert(f, tail));
    }
  }

  lemma ConvertsWholeStream(f: Formats, vs: seq<Value>, e: Bytes)
    requires EncodesItems(vs, e)
    ensures Convert(f, e) == Converted(Lines(f, vs), EOF)
  {
    ConvertsStream(f, vs, e, []);
    assert e + [] == e && Lines(f, vs) + "" == Lines(f, vs);
  }
}
