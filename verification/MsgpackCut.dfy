/**
 Inputs that end inside a value: which of them still decode, because only the end of a number is
 missing, and which of them end the conversion as if the stream were complete.
 */
module MsgpackCut {
  import opened Msgpack
  import opened MsgpackComplete
  import opened MsgpackSound
  import opened Sequences
  import JsonRoundTrip

  // ---------- cut-off inputs, on the wire ----------

  /** t starts with a header announcing n, and rest follows; the last pad bytes of the header are
      zeros past the end of t. */
  ghost predicate HeaderOf(t: Bytes, kind: Kind, n: nat, rest: Bytes, pad: nat) {
    t != [] && exists h :: Header(kind, n, h) && Covers(t, h, rest, pad)
  }

  /** t is a whole encoding, of some value, and then rest. */
  ghost predicate Front(t: Bytes, rest: Bytes) {
    exists v, e :: Encodes(v, e) && t == e + rest
  }

  /** t is the encodings of n values, and then rest. */
  ghost predicate Fronts(t: Bytes, n: nat, rest: Bytes) {
    exists vs, e :: |vs| == n && EncodesItems(vs, e) && t == e + rest
  }

  /** t is a number without its last bytes, which are zeros. */
  ghost predicate NumberCut(t: Bytes) {
    t != [] && exists v: Value, e: Bytes, pad: nat ::
      (v.Int? || v.Float?) && Encodes(v, e) && pad > 0 && Covers(t, e, [], pad)
  }

  /** How many values follow a header of an array, or of a map. */
  function Elements(kind: Kind, n: nat): nat {
    if kind.MapKind? then 2 * n else n
  }

  /** t ends inside a number or a length, with nothing but zero bytes of it missing, and nothing
      else is missing. */
  ghost predicate Stretched(t: Bytes)
    decreases |t|, 1
  {
    || NumberCut(t)
    || exists kind: Kind, n: nat, rest: Bytes, pad: nat ::
         HeaderOf(t, kind, n, rest, pad) && |rest| < |t| && StretchedBody(kind, n, rest, pad)
  }

  ghost predicate StretchedBody(kind: Kind, n: nat, b: Bytes, pad: nat)
    decreases |b|, 3
  {
    match kind
    case ExtKind => false
    case ArrKind | MapKind => (n == 0 && pad > 0) || StretchedItems(Elements(kind, n), b)
    case _ => n == 0 && pad > 0
  }

  ghost predicate StretchedItems(n: nat, b: Bytes)
    decreases |b|, 2
  {
    n > 0 && exists tail: Bytes :: |tail| <= |b| && Fronts(b, n - 1, tail) && Stretched(tail)
  }

  /** t ends where more was announced and none of it is there: after a header, after an
      extension's type, or between two elements. */
  ghost predicate Open(t: Bytes)
    decreases |t|, 1
  {
    exists kind: Kind, n: nat, rest: Bytes, pad: nat ::
      HeaderOf(t, kind, n, rest, pad) && |rest| < |t| && OpenBody(kind, n, rest)
  }

  ghost predicate OpenBody(kind: Kind, n: nat, b: Bytes)
    decreases |b|, 3
  {
    match kind
    case ArrKind | MapKind => OpenItems(Elements(kind, n), b)
    case ExtKind => b == [] || (n > 0 && |b| == 1)
    case _ => n > 0 && b == []
  }

  ghost predicate OpenItems(n: nat, b: Bytes)
    decreases |b|, 2
  {
    exists m: nat, tail: Bytes ::
      |tail| <= |b| && m < n && Fronts(b, m, tail) && (tail == [] || Open(tail) || (m + 1 < n && Stretched(tail)))
  }

  // ---------- reading several values ----------

  datatype Outcome = Whole(rest: Bytes) | Broken(err: Error)

  function Ends(r: Result): Outcome {
    if r.Done? then Whole(r.rest) else Broken(r.err)
  }

  function Reads(f: Formats, b: Bytes, n: nat): Outcome
    decreases n
  {
    if n == 0 then Whole(b)
    else
      var r := DecodeNext(f, b);
      if r.Fail? then Broken(r.err) else Reads(f, r.rest, n - 1)
  }

  lemma {:induction false} ItemsRead(f: Formats, b: Bytes, n: nat, first: bool)
    ensures Ends(DecodeItems(f, b, n, first)) == Reads(f, b, n)
    decreases n
  {
    hide DecodeNext;
    if n > 0 && DecodeNext(f, b).Done? {
      ItemsRead(f, DecodeNext(f, b).rest, n - 1, false);
    }
  }

  lemma {:induction false} EntriesRead(f: Formats, b: Bytes, n: nat, first: bool)
    ensures Ends(DecodeEntries(f, b, n, first)) == Reads(f, b, 2 * n)
    decreases n
  {
    hide DecodeNext;
    if n > 0 && DecodeNext(f, b).Done? {
      var mid := DecodeNext(f, b).rest;
      assert Reads(f, b, 2 * n) == Reads(f, mid, 2 * n - 1);
      if DecodeNext(f, mid).Done? {
        assert Reads(f, mid, 2 * n - 1) == Reads(f, DecodeNext(f, mid).rest, 2 * (n - 1));
        EntriesRead(f, DecodeNext(f, mid).rest, n - 1, false);
      }
    }
  }

  lemma BodyEnds(f: Formats, kind: Kind, n: nat, b: Bytes)
    ensures kind.ArrKind? || kind.MapKind? ==> Ends(Body(f, kind, n, b)) == Reads(f, b, Elements(kind, n))
    ensures kind.StrKind? || kind.BinKind? ==>
              Ends(Body(f, kind, n, b))
              == if n <= |b| then Whole(b[n..]) else Broken(if b == [] then EOF else UnexpectedEOF)
    ensures kind.ExtKind? ==> (Ends(Body(f, kind, n, b)) == Broken(EOF) <==> b == [] || (n > 0 && |b| == 1))
  {
    hide DecodeItems, DecodeEntries, Reads;
    ItemsRead(f, b, n, true);
    EntriesRead(f, b, n, true);
  }

  lemma {:induction false} SkipsFronts(f: Formats, vs: seq<Value>, e: Bytes, tail: Bytes, m: nat)
    requires EncodesItems(vs, e)
    ensures Reads(f, e + tail, |vs| + m) == Reads(f, tail, m)
    decreases |vs|
  {
    hide DecodeNext, Encodes;
    if vs == [] {
      Empty(tail);
    } else {
      var k: nat :| k <= |e| && Encodes(vs[0], e[..k]) && EncodesItems(vs[1..], e[k..]);
      DecodesEncoding(f, vs[0], e[..k], e[k..] + tail);
      Regroup(e, k, tail);
      SkipsFronts(f, vs[1..], e[k..], tail, m);
    }
  }

  // ---------- headers and numbers ----------

  lemma CutBytes(e: Bytes, t: Bytes, pad: nat)
    requires t != [] && pad > 0 && t + Zeros(pad) == e
    ensures e[0] == t[0] && Padded(t[1..], |e| - 1) == e[1..] && Skip(t[1..], |e| - 1) == []
  {
    Uncons(t, Zeros(pad));
  }

  lemma CutHeaderRead(kind: Kind, n: nat, h: Bytes, t: Bytes, pad: nat)
    requires Header(kind, n, h) && t != [] && pad > 0 && t + Zeros(pad) == h
    ensures ReadHead(t[0], t[1..]) == (Container(kind, n), [])
  {
    HeaderForm(kind, n, h);
    CutBytes(h, t, pad);
    hide Header, BigEndian, FromBigEndian, Pow256, Padded, Skip;
    BigEndianInverse(n, |h| - 1);
    Singleton(h[0], BigEndian(n, |h| - 1));
  }

  lemma HeaderOfReads(t: Bytes, kind: Kind, n: nat, rest: Bytes, pad: nat)
    requires HeaderOf(t, kind, n, rest, pad)
    ensures ReadHead(t[0], t[1..]) == (Container(kind, n), rest)
    ensures |rest| < |t|
  {
    hide ReadHead;
    var h: Bytes :| Header(kind, n, h) && Covers(t, h, rest, pad);
    HeaderForm(kind, n, h);
    if pad == 0 {
      Empty(t);
      HeaderRead(kind, n, h, rest);
      Uncons(h, rest);
    } else {
      Empty(h);
      CutHeaderRead(kind, n, h, t, pad);
    }
  }

  lemma CutIntRead(n: int, e: Bytes, t: Bytes, pad: nat)
    requires EncodesInt(n, e) && t != [] && pad > 0 && t + Zeros(pad) == e
    ensures ReadHead(t[0], t[1..]) == (Number(n), [])
  {
    hide EncodesInt, FromBigEndian, BigEndian, Pow256, Padded;
    var w := |e| - 1;
    CutBytes(e, t, pad);
    IntForm(n, e);
    if ShapeOf(e[0]).UintIn? {
      BigEndianInverse(n, w);
      Singleton(e[0], BigEndian(n, w));
    } else {
      SignedInverse(n, w);
      BigEndianInverse(Unsigned(n, w), w);
      Singleton(e[0], BigEndian(Unsigned(n, w), w));
    }
  }

  lemma CutFloatRead(w: nat, bits: nat, e: Bytes, t: Bytes, pad: nat)
    requires (w == 4 && Sized(0xca, 4, bits, e)) || (w == 8 && Sized(0xcb, 8, bits, e))
    requires t != [] && pad > 0 && t + Zeros(pad) == e
    ensures ReadHead(t[0], t[1..]) == (Real(w, bits), [])
  {
    hide FromBigEndian, BigEndian, Pow256, Padded;
    CutBytes(e, t, pad);
    BigEndianInverse(bits, w);
    Singleton(e[0], BigEndian(bits, w));
  }

  lemma NumberCutDecodes(f: Formats, t: Bytes)
    requires NumberCut(t)
    ensures DecodeNext(f, t).Done? && DecodeNext(f, t).rest == []
  {
    hide DecodeNext, EncodesInt, Sized, ReadHead;
    var v: Value, e: Bytes, pad: nat :| (v.Int? || v.Float?) && Encodes(v, e) && pad > 0 && Covers(t, e, [], pad);
    Empty(e);
    if v.Int? {
      CutIntRead(v.n, e, t, pad);
      HeadDecodes(f, t, Number(v.n), []);
    } else {
      CutFloatRead(v.width, v.bits, e, t, pad);
      HeadDecodes(f, t, Real(v.width, v.bits), []);
    }
  }

  // ---------- putting whole values together ----------

  lemma FrontOfBody(t: Bytes, h: Bytes, rest: Bytes, v: Value, body: Bytes, tail: Bytes)
    requires t == h + rest && rest == body + tail && Encodes(v, h + body)
    ensures Front(t, tail)
  {
    Assoc(h, body, tail);
  }

  lemma FrontsNone(b: Bytes)
    ensures Fronts(b, 0, b)
  {
    var vs: seq<Value>, e: Bytes := [], [];
    Empty(b);
    assert EncodesItems(vs, e) && b == e + b;
  }

  lemma FrontsCons(b: Bytes, mid: Bytes, n: nat, rest: Bytes)
    requires Front(b, mid) && Fronts(mid, n, rest)
    ensures Fronts(b, n + 1, rest)
  {
    hide Encodes, EncodesItems;
    var v: Value, e: Bytes :| Encodes(v, e) && b == e + mid;
    var vs: seq<Value>, e': Bytes :| |vs| == n && EncodesItems(vs, e') && mid == e' + rest;
    ItemsEncoded(v, e, vs, e');
    Assoc(e, e', rest);
    assert |[v] + vs| == n + 1;
  }

  lemma {:induction false} Paired(vs: seq<Value>, e: Bytes) returns (es: seq<Entry>)
    requires |vs| % 2 == 0 && EncodesItems(vs, e)
    ensures 2 * |es| == |vs| && EncodesEntries(es, e)
    decreases |vs|
  {
    hide Encodes;
    if vs == [] {
      es := [];
    } else {
      var k: nat :| k <= |e| && Encodes(vs[0], e[..k]) && EncodesItems(vs[1..], e[k..]);
      var vs', e' := vs[1..], e[k..];
      var m: nat :| m <= |e'| && Encodes(vs'[0], e'[..m]) && EncodesItems(vs'[1..], e'[m..]);
      es := Paired(vs'[1..], e'[m..]);
      EntriesEncoded(Entry(vs[0], vs'[0]), e[..k], e'[..m], es, e'[m..]);
      SplitAt(e, k);
      SplitAt(e', m);
      Assoc(e[..k], e'[..m], e'[m..]);
      es := [Entry(vs[0], vs'[0])] + es;
    }
  }

  /** A header with all its elements is a whole value. */
  lemma FrontOfFronts(t: Bytes, kind: Kind, n: nat, h: Bytes, b: Bytes, tail: Bytes)
    requires kind.ArrKind? || kind.MapKind?
    requires Header(kind, n, h) && t == h + b && Fronts(b, Elements(kind, n), tail)
    ensures Front(t, tail)
  {
    hide Header, Encodes, EncodesItems, EncodesEntries;
    var vs: seq<Value>, e: Bytes :|
      |vs| == Elements(kind, n) && EncodesItems(vs, e) && b == e + tail;
    if kind.ArrKind? {
      ArrEncoded(vs, h, e);
      FrontOfBody(t, h, b, Arr(vs), e, tail);
    } else {
      var es := Paired(vs, e);
      MapEncoded(es, h, e);
      FrontOfBody(t, h, b, Map(es), e, tail);
    }
  }

  // ---------- what a success and an end of input mean ----------

  lemma {:induction false} DoneMeans(f: Formats, t: Bytes)
    requires DecodeNext(f, t).Done?
    ensures Front(t, DecodeNext(f, t).rest) || (DecodeNext(f, t).rest == [] && Stretched(t))
    decreases |t|, 1
  {
    hide Header, EncodesInt, Body, StretchedBody, ReadHead, Sized, Pow256, BigEndian;
    var head, rest := ReadHead(t[0], t[1..]).0, ReadHead(t[0], t[1..]).1;
    var h, pad := HeadExplained(t[0], t[1..]);
    SplitAt(t, 1);
    Empty(t);
    if head.Container? {
      HeaderOfBytes(t, head.kind, head.size, h, rest, pad);
      BodyDoneMeans(f, t, h, head.kind, head.size, rest, pad);
    } else {
      var v := match head
        case Literal(text) => if text == "null" then Nil else Bool(text == "true")
        case Number(n) => Int(n)
        case Real(w, bits) => Float(w, bits);
      assert Encodes(v, h);
      if pad == 0 {
        assert Front(t, rest);
      } else {
        CutNumber(t, v, h, pad);
      }
    }
  }

  lemma CutNumber(t: Bytes, v: Value, e: Bytes, pad: nat)
    requires v.Nil? || v.Bool? || v.Int? || v.Float?
    requires t != [] && Encodes(v, e) && pad > 0 && Covers(t, e, [], pad)
    ensures NumberCut(t)
  {
    hide EncodesInt, Sized;
    assert |t| + pad == |e|;
  }

  lemma HeaderOfBytes(t: Bytes, kind: Kind, n: nat, h: Bytes, rest: Bytes, pad: nat)
    requires t != [] && Header(kind, n, h) && Covers(t, h, rest, pad)
    ensures HeaderOf(t, kind, n, rest, pad) && |rest| < |t|
  {
    hide Header;
    HeaderForm(kind, n, h);
    assert |t| + pad == |h| + |rest|;
  }

  lemma {:induction false} BodyDoneMeans(f: Formats, t: Bytes, h: Bytes, kind: Kind, n: nat, b: Bytes, pad: nat)
    requires Header(kind, n, h) && Covers(t, h, b, pad) && Body(f, kind, n, b).Done?
    ensures || Front(t, Body(f, kind, n, b).rest)
            || (Body(f, kind, n, b).rest == [] && StretchedBody(kind, n, b, pad))
    decreases |b|, 3
  {
    hide Header, Encodes, EncodesItems, DecodeItems, DecodeEntries, DecodeExt, Reads;
    Empty(t);
    BodyEnds(f, kind, n, b);
    match kind
    case ArrKind | MapKind =>
      ElementsDoneMeans(f, t, h, kind, n, b, pad);
    case ExtKind =>
      var v, body := ExtExplained(f, h, n, b);
      FrontOfBody(t, h, b, v, body, Body(f, kind, n, b).rest);
    case _ =>
      if pad == 0 {
        var v := BlobExplained(f, kind, h, n, b);
        SplitAt(b, n);
        FrontOfBody(t, h, b, v, b[..n], b[n..]);
      }
  }

  lemma {:induction false} ElementsDoneMeans(f: Formats, t: Bytes, h: Bytes, kind: Kind, n: nat, b: Bytes, pad: nat)
    requires kind.ArrKind? || kind.MapKind?
    requires Header(kind, n, h) && Covers(t, h, b, pad) && Ends(Body(f, kind, n, b)).Whole?
    ensures || Front(t, Body(f, kind, n, b).rest)
            || (Body(f, kind, n, b).rest == [] && StretchedBody(kind, n, b, pad))
    decreases |b|, 2, 1
  {
    hide Header, Body, Fronts, Front, StretchedItems, Reads;
    Empty(t);
    BodyEnds(f, kind, n, b);
    ReadsMeans(f, b, Elements(kind, n));
    if pad > 0 {
      ReadsNothing(f, Elements(kind, n));
    } else if Fronts(b, Elements(kind, n), Body(f, kind, n, b).rest) {
      FrontOfFronts(t, kind, n, h, b, Body(f, kind, n, b).rest);
    }
  }

  lemma ReadsNothing(f: Formats, n: nat)
    ensures Reads(f, [], n) == if n == 0 then Whole([]) else Broken(EOF)
  {}

  lemma {:induction false} ReadsMeans(f: Formats, b: Bytes, n: nat)
    requires Reads(f, b, n).Whole?
    ensures Fronts(b, n, Reads(f, b, n).rest) || (Reads(f, b, n).rest == [] && StretchedItems(n, b))
    decreases |b|, 2, 0
  {
    hide DecodeNext, Front, Stretched;
    FrontsNone(b);
    if n > 0 {
      DoneMeans(f, b);
      var mid := DecodeNext(f, b).rest;
      if Front(b, mid) {
        ReadsMeans(f, mid, n - 1);
        if Fronts(mid, n - 1, Reads(f, mid, n - 1).rest) {
          FrontsCons(b, mid, n - 1, Reads(f, mid, n - 1).rest);
        } else {
          StretchedCons(b, mid, n - 1);
        }
      } else {
        ReadsNothing(f, n - 1);
      }
    }
  }

  lemma StretchedCons(b: Bytes, mid: Bytes, n: nat)
    requires Front(b, mid) && |mid| < |b| && StretchedItems(n, mid)
    ensures StretchedItems(n + 1, b)
  {
    hide Front, Stretched;
    var tail: Bytes :| |tail| <= |mid| && Fronts(mid, n - 1, tail) && Stretched(tail);
    FrontsCons(b, mid, n - 1, tail);
  }

  lemma {:induction false} EofMeans(f: Formats, t: Bytes)
    requires t != [] && DecodeNext(f, t).Fail? && DecodeNext(f, t).err == EOF
    ensures Open(t)
    decreases |t|, 1
  {
    hide Header, Body, ReadHead, OpenBody;
    var head, rest := ReadHead(t[0], t[1..]).0, ReadHead(t[0], t[1..]).1;
    var h, pad := HeadExplained(t[0], t[1..]);
    SplitAt(t, 1);
    HeaderOfBytes(t, head.kind, head.size, h, rest, pad);
    BodyEofMeans(f, head.kind, head.size, rest);
  }

  lemma {:induction false} BodyEofMeans(f: Formats, kind: Kind, n: nat, b: Bytes)
    requires Ends(Body(f, kind, n, b)) == Broken(EOF)
    ensures OpenBody(kind, n, b)
    decreases |b|, 3
  {
    hide Body, Reads, OpenItems;
    BodyEnds(f, kind, n, b);
    if kind.ArrKind? || kind.MapKind? {
      ReadsEofMeans(f, b, Elements(kind, n));
    }
  }

  lemma {:induction false} ReadsEofMeans(f: Formats, b: Bytes, n: nat)
    requires Reads(f, b, n) == Broken(EOF)
    ensures OpenItems(n, b)
    decreases |b|, 2
  {
    hide DecodeNext, Front, Stretched, Open, Fronts;
    FrontsNone(b);
    if b != [] && DecodeNext(f, b).Fail? {
      EofMeans(f, b);
    } else if b != [] {
      DoneMeans(f, b);
      var mid := DecodeNext(f, b).rest;
      if Front(b, mid) {
        ReadsEofMeans(f, mid, n - 1);
        OpenCons(b, mid, n - 1);
      }
    }
  }

  lemma OpenCons(b: Bytes, mid: Bytes, n: nat)
    requires Front(b, mid) && |mid| < |b| && OpenItems(n, mid)
    ensures OpenItems(n + 1, b)
  {
    hide Front, Stretched, Open, Fronts;
    var m: nat, tail: Bytes :|
      |tail| <= |mid| && m < n && Fronts(mid, m, tail) && (tail == [] || Open(tail) || (m + 1 < n && Stretched(tail)));
    FrontsCons(b, mid, m, tail);
  }

  // ---------- what a cut leads to ----------

  lemma {:induction false} StretchedDecodes(f: Formats, t: Bytes)
    requires Stretched(t)
    ensures DecodeNext(f, t).Done? && DecodeNext(f, t).rest == []
    decreases |t|, 1
  {
    hide DecodeNext, Body, HeaderOf, NumberCut;
    if NumberCut(t) {
      NumberCutDecodes(f, t);
    } else {
      var kind: Kind, n: nat, rest: Bytes, pad: nat :|
        HeaderOf(t, kind, n, rest, pad) && |rest| < |t| && StretchedBody(kind, n, rest, pad);
      HeaderOfReads(t, kind, n, rest, pad);
      CutLeavesNothing(t, kind, n, rest, pad);
      HeadDecodes(f, t, Container(kind, n), rest);
      BodyEnds(f, kind, n, rest);
      if n > 0 {
        StretchedReads(f, Elements(kind, n), rest);
      } else {
        assert !StretchedItems(0, rest) && Elements(kind, n) == 0;
        assert rest == [] && rest[0..] == [];
        ReadsNothing(f, 0);
      }
    }
  }

  lemma CutLeavesNothing(t: Bytes, kind: Kind, n: nat, rest: Bytes, pad: nat)
    requires HeaderOf(t, kind, n, rest, pad)
    ensures t != [] && (pad > 0 ==> rest == [])
  {}

  lemma {:induction false} StretchedReads(f: Formats, n: nat, b: Bytes)
    requires StretchedItems(n, b)
    ensures Reads(f, b, n) == Whole([])
    decreases |b|, 2
  {
    hide DecodeNext, Stretched, EncodesItems;
    var tail: Bytes :| |tail| <= |b| && Fronts(b, n - 1, tail) && Stretched(tail);
    var vs: seq<Value>, e: Bytes :| |vs| == n - 1 && EncodesItems(vs, e) && b == e + tail;
    SkipsFronts(f, vs, e, tail, 1);
    StretchedDecodes(f, tail);
  }

  lemma {:induction false} OpenDecodes(f: Formats, t: Bytes)
    requires Open(t)
    ensures t != [] && Ends(DecodeNext(f, t)) == Broken(EOF)
    decreases |t|, 1
  {
    hide DecodeNext, Body, HeaderOf, OpenItems;
    var kind: Kind, n: nat, rest: Bytes, pad: nat :|
      HeaderOf(t, kind, n, rest, pad) && |rest| < |t| && OpenBody(kind, n, rest);
    HeaderOfReads(t, kind, n, rest, pad);
    CutLeavesNothing(t, kind, n, rest, pad);
    HeadDecodes(f, t, Container(kind, n), rest);
    BodyEnds(f, kind, n, rest);
    if kind.ArrKind? || kind.MapKind? {
      OpenReads(f, Elements(kind, n), rest);
    }
  }

  lemma {:induction false} OpenReads(f: Formats, n: nat, b: Bytes)
    requires OpenItems(n, b)
    ensures Reads(f, b, n) == Broken(EOF)
    decreases |b|, 2
  {
    hide DecodeNext, Stretched, Open, EncodesItems;
    var m: nat, tail: Bytes :|
      |tail| <= |b| && m < n && Fronts(b, m, tail) && (tail == [] || Open(tail) || (m + 1 < n && Stretched(tail)));
    var vs: seq<Value>, e: Bytes :| |vs| == m && EncodesItems(vs, e) && b == e + tail;
    SkipsFronts(f, vs, e, tail, n - m);
    if tail == [] {
      ReadsNothing(f, n - m);
    } else if Open(tail) {
      OpenDecodes(f, tail);
    } else {
      StretchedDecodes(f, tail);
      ReadsNothing(f, n - m - 1);
    }
  }

  // ---------- the whole value that a cut number belongs to ----------

  lemma {:induction false} ItemsSnoc(vs: seq<Value>, e: Bytes, v: Value, e': Bytes)
    requires EncodesItems(vs, e) && Encodes(v, e')
    ensures EncodesItems(vs + [v], e + e')
    decreases |vs|
  {
    hide Encodes;
    if vs == [] {
      Empty(e');
      assert EncodesItems([], []);
      ItemsEncoded(v, e', [], []);
    } else {
      var k: nat :| k <= |e| && Encodes(vs[0], e[..k]) && EncodesItems(vs[1..], e[k..]);
      ItemsSnoc(vs[1..], e[k..], v, e');
      ItemsEncoded(vs[0], e[..k], vs[1..] + [v], e[k..] + e');
      Regroup(e, k, e');
      assert [vs[0]] + (vs[1..] + [v]) == vs + [v];
    }
  }

  lemma EmptyBody(kind: Kind, h: Bytes) returns (v: Value)
    requires !kind.ExtKind? && Header(kind, 0, h)
    ensures Encodes(v, h)
  {
    hide Header;
    Empty(h);
    match kind
    case ArrKind =>
      v := Arr([]);
      ArrEncoded([], h, []);
    case MapKind =>
      v := Map([]);
      MapEncoded([], h, []);
    case StrKind =>
      assert h[..|h|] == h && HeaderAt(kind, 0, h, |h|);
      v := Str([]);
    case BinKind =>
      assert h[..|h|] == h && HeaderAt(kind, 0, h, |h|);
      v := Bin([]);
  }

  lemma ElementsEncoded(kind: Kind, n: nat, h: Bytes, vs: seq<Value>, body: Bytes) returns (v: Value)
    requires kind.ArrKind? || kind.MapKind?
    requires Header(kind, n, h) && |vs| == Elements(kind, n) && EncodesItems(vs, body)
    ensures Encodes(v, h + body)
  {
    hide Header, EncodesItems, Encodes, EncodesEntries;
    if kind.ArrKind? {
      ArrEncoded(vs, h, body);
      v := Arr(vs);
    } else {
      var es := Paired(vs, body);
      MapEncoded(es, h, body);
      v := Map(es);
    }
  }

  /** A stretched input is a legal encoding of a value without its last bytes, which are zeros. */
  lemma {:induction false} Completed(t: Bytes) returns (v: Value, e: Bytes, pad: nat)
    requires Stretched(t)
    ensures Encodes(v, e) && pad > 0 && t + Zeros(pad) == e
    decreases |t|, 1
  {
    hide Encodes, Header, StretchedItems;
    if NumberCut(t) {
      v, e, pad :| (v.Int? || v.Float?) && Encodes(v, e) && pad > 0 && Covers(t, e, [], pad);
      Empty(e);
    } else {
      var kind: Kind, n: nat, b: Bytes, hpad: nat :|
        HeaderOf(t, kind, n, b, hpad) && |b| < |t| && StretchedBody(kind, n, b, hpad);
      var h: Bytes :| Header(kind, n, h) && Covers(t, h, b, hpad);
      if n == 0 && hpad > 0 {
        v := EmptyBody(kind, h);
        e, pad := h, hpad;
        Empty(h);
      } else {
        var vs, body;
        vs, body, pad := CompletedItems(Elements(kind, n), b);
        Empty(t);
        v := ElementsEncoded(kind, n, h, vs, body);
        e := h + body;
        Assoc(h, b, Zeros(pad));
      }
    }
  }

  lemma {:induction false} CompletedItems(n: nat, b: Bytes) returns (vs: seq<Value>, e: Bytes, pad: nat)
    requires StretchedItems(n, b)
    ensures b != [] && |vs| == n && EncodesItems(vs, e) && pad > 0 && b + Zeros(pad) == e
    decreases |b|, 2
  {
    hide Encodes, EncodesItems, Stretched;
    var tail: Bytes :| |tail| <= |b| && Fronts(b, n - 1, tail) && Stretched(tail);
    StretchedNonEmpty(tail);
    var vs', e' :| |vs'| == n - 1 && EncodesItems(vs', e') && b == e' + tail;
    var v, e0;
    v, e0, pad := Completed(tail);
    ItemsSnoc(vs', e', v, e0);
    vs, e := vs' + [v], e' + e0;
    Assoc(e', tail, Zeros(pad));
  }

  lemma StretchedNonEmpty(t: Bytes)
    requires Stretched(t)
    ensures t != []
  {}

  lemma StretchedIsNotWhole(f: Formats, t: Bytes, rest: Bytes)
    requires Stretched(t)
    ensures !Front(t, rest)
  {
    hide Encodes, Stretched;
    if Front(t, rest) {
      var v, e :| Encodes(v, e) && t == e + rest;
      var v', e', pad := Completed(t);
      Assoc(e, rest, Zeros(pad));
      Empty(e');
      EncodingsArePrefixFree(f, v, e, v', e', rest + Zeros(pad), []);
    }
  }

  /** Two encodings that begin with the same bytes, and go on with zeros, have one text. */
  lemma SameCut(f: Formats, v: Value, e: Bytes, v': Value, e': Bytes, t: Bytes, pad: nat, pad': nat)
    requires Encodes(v, e) && Encodes(v', e') && t + Zeros(pad) == e && t + Zeros(pad') == e'
    ensures Render(f, v) == Render(f, v')
  {
    hide Encodes, Render;
    Empty(e);
    Empty(e');
    if pad <= pad' {
      assert e + Zeros(pad' - pad) == e' + [];
      EncodingsArePrefixFree(f, v, e, v', e', Zeros(pad' - pad), []);
    } else {
      assert e' + Zeros(pad - pad') == e + [];
      EncodingsArePrefixFree(f, v', e', v, e, Zeros(pad - pad'), []);
    }
  }

  // ---------- exactly when ----------

  /** t is an encoding of a value with this text, without its last bytes, which are zeros; they
      belong to a number or a length. */
  ghost predicate EncodingCut(f: Formats, t: Bytes, out: string)
  {
    Stretched(t) && exists v, e, pad: nat :: pad > 0 && Encodes(v, e) && t + Zeros(pad) == e && out == Render(f, v)
  }

  lemma CompletedText(f: Formats, t: Bytes)
    requires Stretched(t)
    ensures EncodingCut(f, t, DecodeNext(f, t).out)
  {
    hide Encodes, Stretched, DecodeNext, Render;
    StretchedDecodes(f, t);
    var v, e, pad := Completed(t);
    var v', e', pad' := Explained(f, t);
    Empty(e);
    Empty(e');
    SameCut(f, v, e, v', e', t, pad, pad');
  }

  /** Success is exactly "a legal encoding stands at the front", or, with nothing left, "one cut
      inside a number or length that ends in zeros"; never both. */
  lemma DecodesExactlyEncodings(f: Formats, t: Bytes, out: string, rest: Bytes)
    ensures DecodeNext(f, t) == Done(out, rest) <==>
              EncodingAtFront(f, t, out, rest) || (rest == [] && EncodingCut(f, t, out))
    ensures !(EncodingAtFront(f, t, out, rest) && EncodingCut(f, t, out))
  {
    hide Encodes, Stretched, DecodeNext, Render;
    if EncodingAtFront(f, t, out, rest) {
      var v, e :| Encodes(v, e) && t == e + rest && out == Render(f, v);
      DecodesEncoding(f, v, e, rest);
      if EncodingCut(f, t, out) {
        StretchedIsNotWhole(f, t, rest);
      }
    } else if EncodingCut(f, t, out) {
      CutText(f, t, out);
    }
    if DecodeNext(f, t) == Done(out, rest) {
      DoneMeans(f, t);
      if Front(t, rest) {
        FrontText(f, t, rest);
      } else {
        CompletedText(f, t);
      }
    }
  }

  lemma FrontText(f: Formats, t: Bytes, rest: Bytes)
    requires Front(t, rest)
    ensures EncodingAtFront(f, t, DecodeNext(f, t).out, rest)
  {
    hide Encodes, DecodeNext, Render;
    var v, e :| Encodes(v, e) && t == e + rest;
    DecodesEncoding(f, v, e, rest);
  }

  lemma CutText(f: Formats, t: Bytes, out: string)
    requires EncodingCut(f, t, out)
    ensures DecodeNext(f, t) == Done(out, [])
  {
    hide Encodes, Stretched, DecodeNext, Render;
    var v, e, pad: nat :| pad > 0 && Encodes(v, e) && t + Zeros(pad) == e && out == Render(f, v);
    StretchedDecodes(f, t);
    CompletedText(f, t);
    var v', e', pad': nat :|
      pad' > 0 && Encodes(v', e') && t + Zeros(pad') == e' && DecodeNext(f, t).out == Render(f, v');
    SameCut(f, v, e, v', e', t, pad, pad');
  }

  /** A value ends in an end of input exactly when the input stops where more was announced. */
  lemma EndsExactlyWhenOpen(f: Formats, t: Bytes)
    requires t != []
    ensures DecodeNext(f, t).Fail? && DecodeNext(f, t).err == EOF <==> Open(t)
  {
    hide DecodeNext, Open;
    if Open(t) {
      OpenDecodes(f, t);
    } else if DecodeNext(f, t).Fail? && DecodeNext(f, t).err == EOF {
      EofMeans(f, t);
    }
  }

  // ---------- a given number, cut ----------

  /** A number without its last bytes is taken for the number with zeros in their place. */
  lemma CutNumberPrints(f: Formats, v: Value, e: Bytes, k: nat) returns (v': Value)
    requires (v.Int? || v.Float?) && Encodes(v, e) && 0 < k < |e|
    ensures (v.Int? ==> v'.Int?) && (v.Float? ==> v'.Float?) && Encodes(v', e[..k] + Zeros(|e| - k))
    ensures DecodeNext(f, e[..k]) == Done(Render(f, v'), [])
  {
    hide DecodeNext, Render, EncodesInt, Sized;
    var t, e' := e[..k], e[..k] + Zeros(|e| - k);
    v' := WithZeros(v, e, e');
    Empty(e');
    assert NumberCut(t) by {
      assert Covers(t, e', [], |e| - k);
    }
    NumberCutDecodes(f, t);
    var v0, e0, pad := Explained(f, t);
    Empty(e0);
    SameCut(f, v', e', v0, e0, t, |e| - k, pad);
  }

  /** The same first byte, and as many bytes after it, are a number of the same kind. */
  lemma WithZeros(v: Value, e: Bytes, e': Bytes) returns (v': Value)
    requires (v.Int? || v.Float?) && Encodes(v, e) && |e| > 1 && |e'| == |e| && e'[0] == e[0]
    ensures (v.Int? ==> v'.Int?) && (v.Float? ==> v'.Float?) && Encodes(v', e')
  {
    hide BigEndian, Pow256, FromBigEndian;
    var w, n := |e| - 1, FromBigEndian(e'[1..]);
    FromBigEndianInverse(e'[1..]);
    assert e' == [e[0]] + e'[1..];
    if v.Int? {
      IntForm(v.n, e);
      WideInt(e[0], n);
      v' := Int(WithNumber(ShapeOf(e[0]), n).n);
    } else {
      v' := Float(v.width, n);
    }
  }

  /** Wherever an integer is cut, it decodes without error, and to the right text exactly if only zeros
      were cut off. */
  lemma CutIntExactly(f: Formats, n: int, e: Bytes, k: nat)
    requires EncodesInt(n, e) && 0 < k < |e|
    ensures DecodeNext(f, e[..k]).Done? && DecodeNext(f, e[..k]).rest == []
    ensures DecodeNext(f, e[..k]).out == Decimal(n) <==> e[k..] == Zeros(|e| - k)
  {
    hide DecodeNext, EncodesInt, Decimal;
    var v' := CutNumberPrints(f, Int(n), e, k);
    var e' := e[..k] + Zeros(|e| - k);
    SplitAt(e, k);
    assert e'[k..] == Zeros(|e| - k);
    if Decimal(v'.n) == Decimal(n) {
      SameDecimal(v'.n, n);
      SameWidth(n, e, e');
    } else if e[k..] == Zeros(|e| - k) {
      Empty(e);
      EncodingsArePrefixFree(f, Int(n), e, v', e', [], []);
    }
  }

  lemma SameDecimal(m: int, n: int)
    requires Decimal(m) == Decimal(n)
    ensures m == n
  {
    JsonRoundTrip.ParsesInt(m, "");
    JsonRoundTrip.ParsesInt(n, "");
  }

  lemma SameWidth(n: int, e: Bytes, e': Bytes)
    requires EncodesInt(n, e) && EncodesInt(n, e') && |e| == |e'| > 1 && e[0] == e'[0]
    ensures e == e'
  {
    hide BigEndian, Pow256, EncodesInt;
    IntForm(n, e);
    IntForm(n, e');
  }

  /** The front of an encoding of 258 prints 256. */
  lemma CutIntChanges(f: Formats)
    ensures EncodesInt(258, [0xcd, 0x01, 0x02]) && Convert(f, [0xcd, 0x01]) == Converted("256\n", EOF)
  {
    var e: Bytes, e' := [0xcd, 0x01, 0x02], [0xcd, 0x01, 0x00];
    BigEndianTwo(258);
    BigEndianTwo(256);
    assert Pow256(1) == 256 && Pow256(2) == 0x1_0000;
    assert Sized(0xcd, 2, 258, e) && Sized(0xcd, 2, 256, e');
    assert [0xcd, 0x01] + Zeros(1) == e';
    CutIntRead(256, e', [0xcd, 0x01], 1);
    HeadDecodes(f, [0xcd, 0x01], Number(256), []);
    assert "256" + "\n" == "256\n";
    assert DecodeNext(f, []) == Fail("", [], EOF);
    Text256();
    hide *;
    assert [0xcd, 0x01] != [];
    ConvertsOne(f, [0xcd, 0x01], "256");
  }

  lemma Text256()
    ensures Decimal(256) == "256"
  {
    assert Natural(2) == "2" && Natural(25) == "25";
  }

  lemma ConvertsOne(f: Formats, bs: Bytes, out: string)
    requires DecodeNext(f, bs) == Done(out, []) && DecodeNext(f, []) == Fail("", [], EOF)
    ensures Convert(f, bs) == Converted(out + "\n", EOF)
  {
    hide DecodeNext;
    Empty(out + "\n");
  }

  lemma BigEndianTwo(n: nat)
    ensures BigEndian(n, 2) == [n / 256 % 256, n % 256]
  {
    assert BigEndian(n / 256, 1) == BigEndian(n / 256 / 256, 0) + [n / 256 % 256];
  }

  // ---------- streams ----------

  /** bs is a stream of whole values. */
  ghost predicate WholeStream(bs: Bytes)
  {
    exists vs :: EncodesItems(vs, bs)
  }

  /** bs is a stream of whole values, followed by a value that is cut where it is not noticed. */
  ghost predicate CutStream(bs: Bytes)
  {
    exists m: nat, tail: Bytes :: Fronts(bs, m, tail) && (Stretched(tail) || Open(tail))
  }

  lemma {:induction false} CutStreamIsSilent(f: Formats, bs: Bytes)
    requires CutStream(bs)
    ensures Convert(f, bs).err == EOF
  {
    hide DecodeNext, Encodes, EncodesItems, Stretched, Open;
    var m: nat, tail: Bytes :| Fronts(bs, m, tail) && (Stretched(tail) || Open(tail));
    var vs: seq<Value>, e: Bytes :| |vs| == m && EncodesItems(vs, e) && bs == e + tail;
    ConvertsStream(f, vs, e, tail);
    if Open(tail) {
      OpenDecodes(f, tail);
    } else {
      StretchedDecodes(f, tail);
      ReadsNothing(f, 1);
    }
  }

  lemma {:induction false} SilentStreams(f: Formats, bs: Bytes)
    requires Convert(f, bs).err == EOF
    ensures WholeStream(bs) || CutStream(bs)
    decreases |bs|
  {
    hide DecodeNext, Encodes, Stretched, Open, Front, Fronts;
    FrontsNone(bs);
    if bs == [] {
      assert EncodesItems([], bs);
    } else if DecodeNext(f, bs).Fail? {
      EofMeans(f, bs);
    } else {
      DoneMeans(f, bs);
      var mid := DecodeNext(f, bs).rest;
      if Front(bs, mid) {
        SilentStreams(f, mid);
        FrontStream(bs, mid);
      }
    }
  }

  lemma FrontStream(bs: Bytes, mid: Bytes)
    requires Front(bs, mid)
    ensures WholeStream(mid) ==> WholeStream(bs)
    ensures CutStream(mid) ==> CutStream(bs)
  {
    hide Encodes, EncodesItems, Stretched, Open, Fronts;
    if WholeStream(mid) {
      var v, e :| Encodes(v, e) && bs == e + mid;
      var vs :| EncodesItems(vs, mid);
      ItemsEncoded(v, e, vs, mid);
    }
    if CutStream(mid) {
      var m: nat, tail: Bytes :| Fronts(mid, m, tail) && (Stretched(tail) || Open(tail));
      FrontsCons(bs, mid, m, tail);
    }
  }

  lemma {:induction false} WholeIsNotCut(f: Formats, vs: seq<Value>, bs: Bytes, m: nat, tail: Bytes)
    requires EncodesItems(vs, bs) && Fronts(bs, m, tail)
    ensures !Stretched(tail) && !Open(tail)
    decreases |vs|
  {
    hide Encodes, Stretched, Open, DecodeNext;
    var ws: seq<Value>, e: Bytes :| |ws| == m && EncodesItems(ws, e) && bs == e + tail;
    if m == 0 {
      Empty(tail);
      if vs == [] {
        if Stretched(tail) {
          StretchedNonEmpty(tail);
        } else if Open(tail) {
          OpenDecodes(f, tail);
        }
      } else {
        var k: nat :| k <= |bs| && Encodes(vs[0], bs[..k]) && EncodesItems(vs[1..], bs[k..]);
        SplitAt(bs, k);
        DecodesEncoding(f, vs[0], bs[..k], bs[k..]);
        if Stretched(tail) {
          StretchedIsNotWhole(f, tail, bs[k..]);
        } else if Open(tail) {
          OpenDecodes(f, tail);
        }
      }
    } else {
      var k: nat :| k <= |e| && Encodes(ws[0], e[..k]) && EncodesItems(ws[1..], e[k..]);
      Regroup(e, k, tail);
      DecodesEncoding(f, ws[0], e[..k], e[k..] + tail);
      if vs != [] {
        var j: nat :| j <= |bs| && Encodes(vs[0], bs[..j]) && EncodesItems(vs[1..], bs[j..]);
        SplitAt(bs, j);
        EncodingsArePrefixFree(f, ws[0], e[..k], vs[0], bs[..j], e[k..] + tail, bs[j..]);
        assert Fronts(bs[j..], m - 1, tail);
        WholeIsNotCut(f, vs[1..], bs[j..], m - 1, tail);
      }
    }
  }

  /** A conversion reports no error for whole streams, as promised, and besides them exactly for
      those that are cut inside the last value without it being noticed. */
  lemma SilentExactly(f: Formats, bs: Bytes)
    ensures Convert(f, bs).err == EOF <==> WholeStream(bs) || CutStream(bs)
    ensures !(WholeStream(bs) && CutStream(bs))
  {
    hide Convert, EncodesItems, Fronts, Stretched, Open;
    if WholeStream(bs) {
      var vs :| EncodesItems(vs, bs);
      ConvertsWholeStream(f, vs, bs);
      if CutStream(bs) {
        var m: nat, tail: Bytes :| Fronts(bs, m, tail) && (Stretched(tail) || Open(tail));
        WholeIsNotCut(f, vs, bs, m, tail);
      }
    } else if CutStream(bs) {
      CutStreamIsSilent(f, bs);
    }
    if Convert(f, bs).err == EOF {
      SilentStreams(f, bs);
    }
  }

  /** A string header without its string: no error and no text. */
  lemma CutStringIsSilent(f: Formats)
    ensures CutStream([0xa5]) && Convert(f, [0xa5]) == Converted("", EOF)
  {
    var t: Bytes := [0xa5];
    FrontsNone(t);
    assert Header(StrKind, 5, t) && Covers(t, t, [], 0);
    assert HeaderOf(t, StrKind, 5, [], 0);
    assert Open(t);
    HeadDecodes(f, t, Container(StrKind, 5), []);
  }
}
