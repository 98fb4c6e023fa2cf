/**
 The converse of MsgpackComplete: whatever the decoder accepts is a legal encoding, where a
 number cut off by the end of the input counts as continued with zero bytes.
 */
module MsgpackSound {
  import opened Msgpack
  import opened MsgpackComplete
  import opened Sequences

  /** bs is e followed by rest, or a beginning of e that lacks only pad zero bytes. */
  predicate Covers(bs: Bytes, e: Bytes, rest: Bytes, pad: nat)
  {
    bs + Zeros(pad) == e + rest && (pad > 0 ==> rest == [])
  }

  lemma CoversConcat(bs: Bytes, e: Bytes, mid: Bytes, pad: nat, e': Bytes, rest: Bytes, pad': nat)
    requires Covers(bs, e, mid, pad) && Covers(mid, e', rest, pad')
    requires mid == [] ==> e' == [] && pad' == 0
    ensures Covers(bs, e + e', rest, pad + pad')
  {
    if pad == 0 {
      assert bs == bs + Zeros(0) == e + mid;
      assert bs + Zeros(pad') == e + (mid + Zeros(pad'));
      assert e + (e' + rest) == e + e' + rest;
    }
  }

  lemma PaddedCovers(p: Byte, bs: Bytes, w: nat)
    ensures BigEndian(ReadUint(bs, w), w) == Padded(bs, w)
    ensures ReadUint(bs, w) < Pow256(w)
    ensures exists pad: nat :: Covers([p] + bs, [p] + BigEndian(ReadUint(bs, w), w), Skip(bs, w), pad)
  {
    FromBigEndianInverse(Padded(bs, w));
    hide BigEndian, FromBigEndian, Pow256;
    var pad := if w <= |bs| then 0 else w - |bs|;
    assert [p] + bs + Zeros(pad) == [p] + Padded(bs, w) + Skip(bs, w);
    assert Covers([p] + bs, [p] + BigEndian(ReadUint(bs, w), w), Skip(bs, w), pad);
  }

  /** What a head stands for on the wire. */
  predicate HeadEncoded(head: Head, e: Bytes)
  {
    match head
    case Literal(text) =>
      || (e == [0xc0] && text == "null") || (e == [0xc2] && text == "false") || (e == [0xc3] && text == "true")
    case Number(n) => EncodesInt(n, e)
    case Real(w, bits) => (w == 4 && Sized(0xca, 4, bits, e)) || (w == 8 && Sized(0xcb, 8, bits, e))
    case Container(kind, n) => Header(kind, n, e)
    case Unknown => true
  }

  lemma FixedHead(p: Byte)
    requires ShapeOf(p).Fixed?
    ensures HeadEncoded(ShapeOf(p).head, [p])
  {}

  lemma WideInt(p: Byte, n: nat)
    requires ShapeOf(p).UintIn? || ShapeOf(p).IntIn?
    requires n < Pow256(ShapeOf(p).width)
    ensures EncodesInt(WithNumber(ShapeOf(p), n).n, [p] + BigEndian(n, ShapeOf(p).width))
  {
    var w := ShapeOf(p).width;
    if ShapeOf(p).UintIn? {
      assert Sized(p, w, n, [p] + BigEndian(n, w));
    } else {
      UnsignedInverse(n, w);
      assert SizedInt(p, w, Signed(n, w), [p] + BigEndian(n, w));
    }
  }

  lemma WideSize(p: Byte, n: nat)
    requires ShapeOf(p).SizeIn? && n < Pow256(ShapeOf(p).width)
    ensures Header(ShapeOf(p).kind, n, [p] + BigEndian(n, ShapeOf(p).width))
  {
    assert Sized(p, ShapeOf(p).width, n, [p] + BigEndian(n, ShapeOf(p).width));
  }

  lemma WideHead(p: Byte, n: nat)
    requires !ShapeOf(p).Fixed? && n < Pow256(ShapeOf(p).width)
    ensures HeadEncoded(WithNumber(ShapeOf(p), n), [p] + BigEndian(n, ShapeOf(p).width))
  {
    if ShapeOf(p).SizeIn? {
      WideSize(p, n);
    } else if !ShapeOf(p).RealIn? {
      WideInt(p, n);
    }
  }

  lemma HeadExplained(p: Byte, bs: Bytes) returns (e: Bytes, pad: nat)
    ensures HeadEncoded(ReadHead(p, bs).0, e)
    ensures Covers([p] + bs, e, ReadHead(p, bs).1, pad)
  {
    if ShapeOf(p).Fixed? {
      FixedHead(p);
      e, pad := [p], 0;
    } else {
      var w := ShapeOf(p).width;
      PaddedCovers(p, bs, w);
      WideHead(p, ReadUint(bs, w));
      e := [p] + BigEndian(ReadUint(bs, w), w);
      pad :| Covers([p] + bs, e, Skip(bs, w), pad);
    }
  }

  // ---------- bodies ----------

  lemma TimeExplained(data: Bytes)
    requires |data| == 4 || |data| == 8 || |data| == 12
    ensures EncodesTime(TimeOf(data).0, TimeOf(data).1, data)
  {
    FromBigEndianInverse(data);
    if |data| == 12 {
      FromBigEndianInverse(data[..4]);
      FromBigEndianInverse(data[4..]);
      UnsignedInverse(FromBigEndian(data[4..]), 8);
      assert data == data[..4] + data[4..];
    }
  }

  lemma SignedByte(b: Byte)
    ensures -128 <= Signed(b, 1) < 128
    ensures (if Signed(b, 1) < 0 then Signed(b, 1) + 256 else Signed(b, 1)) == b
  {}

  lemma ExtExplained(f: Formats, h: Bytes, n: nat, bs: Bytes) returns (v: Value, body: Bytes)
    requires Header(ExtKind, n, h) && DecodeExt(f, n, bs).Done?
    ensures bs == body + DecodeExt(f, n, bs).rest
    ensures Encodes(v, h + body) && DecodeExt(f, n, bs).out == Render(f, v)
  {
    var typ, data := Signed(bs[0], 1), bs[1..][..n];
    body := [bs[0]] + data;
    SignedByte(bs[0]);
    assert bs == body + bs[1..][n..];
    assert (h + body)[..|h|] == h && (h + body)[|h|..] == body;
    assert HeaderAt(ExtKind, |data|, h + body, |h|);
    assert EncodesExt(typ, data, h + body);
    if typ == -1 {
      TimeExplained(data);
      v := Timestamp(TimeOf(data).0, TimeOf(data).1);
    } else {
      v := Ext(typ, data);
    }
  }

  lemma BlobExplained(f: Formats, kind: Kind, h: Bytes, n: nat, bs: Bytes) returns (v: Value)
    requires kind.StrKind? || kind.BinKind?
    requires Header(kind, n, h) && n <= |bs|
    ensures Encodes(v, h + bs[..n]) && Render(f, v) == DecodeBlob(f, kind, n, bs).out
  {
    var s, e := bs[..n], h + bs[..n];
    assert e[..|h|] == h && e[|h|..] == s;
    assert HeaderAt(kind, |s|, e, |h|);
    v := if kind.StrKind? then Str(s) else Bin(s);
  }

  lemma ArrEncoded(vs: seq<Value>, h: Bytes, body: Bytes)
    requires Header(ArrKind, |vs|, h) && EncodesItems(vs, body)
    ensures Encodes(Arr(vs), h + body)
  {
    assert (h + body)[..|h|] == h && (h + body)[|h|..] == body;
    assert HeaderAt(ArrKind, |vs|, h + body, |h|);
  }

  lemma MapEncoded(es: seq<Entry>, h: Bytes, body: Bytes)
    requires Header(MapKind, |es|, h) && EncodesEntries(es, body)
    ensures Encodes(Map(es), h + body)
  {
    assert (h + body)[..|h|] == h && (h + body)[|h|..] == body;
    assert HeaderAt(MapKind, |es|, h + body, |h|);
  }

  lemma ItemsEncoded(v: Value, e: Bytes, vs: seq<Value>, e': Bytes)
    requires Encodes(v, e) && EncodesItems(vs, e')
    ensures EncodesItems([v] + vs, e + e')
  {
    assert (e + e')[..|e|] == e && (e + e')[|e|..] == e';
    assert ([v] + vs)[1..] == vs;
  }

  lemma EntriesEncoded(x: Entry, key: Bytes, val: Bytes, es: seq<Entry>, e: Bytes)
    requires Encodes(x.key, key) && Encodes(x.val, val) && EncodesEntries(es, e)
    ensures EncodesEntries([x] + es, key + val + e)
  {
    var all, k, m := key + val + e, |key|, |key + val|;
    assert all[..k] == key && all[k..m] == val && all[m..] == e;
    assert ([x] + es)[1..] == es;
    assert EncodesEntry(x, all[..k], all[k..m]);
  }

  // ---------- the main result ----------

  lemma {:induction false} Explained(f: Formats, bs: Bytes) returns (v: Value, e: Bytes, pad: nat)
    requires DecodeNext(f, bs).Done?
    ensures Encodes(v, e) && DecodeNext(f, bs).out == Render(f, v)
    ensures Covers(bs, e, DecodeNext(f, bs).rest, pad)
    decreases |bs|, 0
  {
    var (head, rest) := ReadHead(bs[0], bs[1..]);
    var h, pad0 := HeadExplained(bs[0], bs[1..]);
    assert [bs[0]] + bs[1..] == bs;
    match head
    case Literal(text) =>
      v, e, pad := if text == "null" then Nil else Bool(text == "true"), h, pad0;
    case Number(n) =>
      v, e, pad := Int(n), h, pad0;
    case Real(w, bits) =>
      v, e, pad := Float(w, bits), h, pad0;
    case Container(kind, n) =>
      v, e, pad := BodyExplained(f, kind, n, rest, h);
      CoversConcat(bs, h, rest, pad0, e, DecodeNext(f, bs).rest, pad);
      e, pad := h + e, pad0 + pad;
  }

  lemma {:induction false} BodyExplained(f: Formats, kind: Kind, n: nat, bs: Bytes, h: Bytes)
    returns (v: Value, body: Bytes, pad: nat)
    requires Header(kind, n, h)
    requires Body(f, kind, n, bs).Done?
    ensures Encodes(v, h + body) && Body(f, kind, n, bs).out == Render(f, v)
    ensures Covers(bs, body, Body(f, kind, n, bs).rest, pad)
    ensures bs == [] ==> body == [] && pad == 0
    decreases |bs|, 2
  {
    hide Header, Encodes, DecodeExt, DecodeItems, DecodeEntries;
    match kind
    case ArrKind =>
      var vs;
      vs, body, pad := ItemsExplained(f, bs, n, true);
      ArrEncoded(vs, h, body);
      v := Arr(vs);
    case MapKind =>
      var es;
      es, body, pad := EntriesExplained(f, bs, n, true);
      MapEncoded(es, h, body);
      v := Map(es);
    case ExtKind =>
      v, body := ExtExplained(f, h, n, bs);
      pad := 0;
      assert bs + Zeros(0) == bs;
    case _ =>
      v := BlobExplained(f, kind, h, n, bs);
      body, pad := bs[..n], 0;
      assert bs + Zeros(0) == bs == bs[..n] + bs[n..];
  }

  lemma {:induction false} ItemsExplained(f: Formats, bs: Bytes, n: nat, first: bool)
    returns (vs: seq<Value>, e: Bytes, pad: nat)
    requires DecodeItems(f, bs, n, first).Done?
    ensures |vs| == n && EncodesItems(vs, e) && DecodeItems(f, bs, n, first).out == RenderItems(f, vs, first)
    ensures Covers(bs, e, DecodeItems(f, bs, n, first).rest, pad)
    ensures bs == [] ==> e == [] && pad == 0
    decreases |bs|, 1
  {
    hide Body, Render, ReadHead, Encodes;
    if n == 0 {
      vs, e, pad := [], [], 0;
      assert bs + Zeros(0) == [] + bs;
    } else {
      var v, e0, pad0 := Explained(f, bs);
      var mid := DecodeNext(f, bs).rest;
      var vs', e', pad' := ItemsExplained(f, mid, n - 1, false);
      CoversConcat(bs, e0, mid, pad0, e', DecodeItems(f, bs, n, first).rest, pad');
      ItemsEncoded(v, e0, vs', e');
      vs, e, pad := [v] + vs', e0 + e', pad0 + pad';
      assert vs[1..] == vs';
      ItemsStep(f, bs, n, first, Render(f, v), mid, RenderItems(f, vs', false), DecodeItems(f, bs, n, first).rest);
    }
  }

  lemma {:induction false} EntriesExplained(f: Formats, bs: Bytes, n: nat, first: bool)
    returns (es: seq<Entry>, e: Bytes, pad: nat)
    requires DecodeEntries(f, bs, n, first).Done?
    ensures |es| == n && EncodesEntries(es, e) && DecodeEntries(f, bs, n, first).out == RenderEntries(f, es, first)
    ensures Covers(bs, e, DecodeEntries(f, bs, n, first).rest, pad)
    ensures bs == [] ==> e == [] && pad == 0
    decreases |bs|, 1
  {
    hide Body, Render, ReadHead, Encodes;
    if n == 0 {
      es, e, pad := [], [], 0;
      assert bs + Zeros(0) == [] + bs;
    } else {
      var key, ek, pk := Explained(f, bs);
      var mid := DecodeNext(f, bs).rest;
      var val, ev, pv := Explained(f, mid);
      var rest := DecodeNext(f, mid).rest;
      var es', e', pad' := EntriesExplained(f, rest, n - 1, false);
      var x := Entry(key, val);
      CoversConcat(bs, ek, mid, pk, ev, rest, pv);
      CoversConcat(bs, ek + ev, rest, pk + pv, e', DecodeEntries(f, bs, n, first).rest, pad');
      EntriesEncoded(x, ek, ev, es', e');
      es, e, pad := [x] + es', ek + ev + e', pk + pv + pad';
      assert es[1..] == es';
      EntriesStep(f, bs, n, first, Render(f, key), mid, Render(f, val), rest, RenderEntries(f, es', false),
                  DecodeEntries(f, bs, n, first).rest);
    }
  }

  /** A legal encoding of a value with this text stands at the front of bs. */
  ghost predicate EncodingAtFront(f: Formats, bs: Bytes, out: string, rest: Bytes)
  {
    exists v, e :: Encodes(v, e) && bs == e + rest && out == Render(f, v)
  }

  // ---------- streams ----------

  /** Any conversion writes the lines of the encodings at the front, then what the first
      undecodable value wrote, and ends with that value's error. */
  lemma {:induction false} ConvertExplained(f: Formats, bs: Bytes)
    returns (vs: seq<Value>, e: Bytes, tail: Bytes, pad: nat)
    ensures EncodesItems(vs, e) && Covers(bs, e, tail, pad)
    ensures DecodeNext(f, tail).Fail?
    ensures Convert(f, bs) == Converted(Lines(f, vs) + DecodeNext(f, tail).out, DecodeNext(f, tail).err)
    ensures bs == [] ==> e == [] && pad == 0
    decreases |bs|
  {
    if DecodeNext(f, bs).Fail? {
      vs, e, tail, pad := [], [], bs, 0;
      assert bs + Zeros(0) == [] + bs;
    } else {
      var v, e0, pad0 := Explained(f, bs);
      var vs', e', tail', pad' := ConvertExplained(f, DecodeNext(f, bs).rest);
      CoversConcat(bs, e0, DecodeNext(f, bs).rest, pad0, e', tail', pad');
      ItemsEncoded(v, e0, vs', e');
      vs, e, tail, pad := [v] + vs', e0 + e', tail', pad0 + pad';
      assert vs[1..] == vs';
      ConvertStep(f, bs, Render(f, v), DecodeNext(f, bs).rest, Lines(f, vs'),
                  Converted(DecodeNext(f, tail).out, DecodeNext(f, tail).err));
    }
  }

  /** A nested end of input is reported as success: a stream cut between two elements of an
      array of more elements converts without error, to an unfinished line. */
  lemma CutArrayIsSilent(f: Formats, n: nat, h: Bytes, vs: seq<Value>, e: Bytes)
    requires Header(ArrKind, n, h) && |vs| < n && EncodesItems(vs, e)
    ensures Convert(f, h + e) == Converted("[" + RenderItems(f, vs, true) + Separator(vs == []), EOF)
  {
    HeaderAlone(h, e);
    HeaderThen(ArrKind, n, h, |h|, e);
    ItemsRunOut(f, vs, e, n, true);
    HeadDecodes(f, h + e, Container(ArrKind, n), e);
  }

  lemma HeaderAlone(h: Bytes, e: Bytes)
    ensures h[..|h|] == h && h[|h|..] + e == e
  {}

  lemma ItemsFail(f: Formats, bs: Bytes, n: nat, first: bool, out: string, rest: Bytes, items: string)
    requires n > 0 && DecodeNext(f, bs) == Done(out, rest)
    requires DecodeItems(f, rest, n - 1, false) == Fail(items + ", ", [], EOF)
    ensures DecodeItems(f, bs, n, first) == Fail(Separator(first) + out + items + ", ", [], EOF)
  {
    assert Separator(first) + out + (items + ", ") == Separator(first) + out + items + ", ";
  }

  lemma NothingToDecode(f: Formats, n: nat, first: bool)
    requires n > 0
    ensures DecodeItems(f, [], n, first) == Fail(Separator(first), [], EOF)
  {
    Empty(Separator(first));
  }

  lemma {:induction false} ItemsRunOut(f: Formats, vs: seq<Value>, e: Bytes, n: nat, first: bool)
    requires |vs| < n && EncodesItems(vs, e)
    ensures DecodeItems(f, e, n, first) ==
            Fail(RenderItems(f, vs, first) + Separator(first && vs == []), [], EOF)
  {
    hide Body, Encodes, DecodeNext, Render;
    if vs == [] {
      NothingToDecode(f, n, first);
      Empty(Separator(first));
    } else {
      var k: nat :| k <= |e| && Encodes(vs[0], e[..k]) && EncodesItems(vs[1..], e[k..]);
      DecodesEncoding(f, vs[0], e[..k], e[k..]);
      ItemsRunOut(f, vs[1..], e[k..], n - 1, false);
      SplitAt(e, k);
      ItemsFail(f, e[..k] + e[k..], n, first, Render(f, vs[0]), e[k..], RenderItems(f, vs[1..], false));
    }
  }
}
