/**
 The MessagePack side of the transcoder: values, the relation giving every legal wire
 encoding of a value, the JSON text a value stands for, and the decoder as a function of
 the bytes still to be read.  Text is a sequence of output bytes, one `char` per byte.
 */
module Msgpack {

  type Byte = b: int | 0 <= b < 256
  type Bytes = seq<Byte>

  datatype Value =
    | Nil
    | Bool(b: bool)
    | Int(n: int)
    | Float(width: nat, bits: nat)
    | Str(text: Bytes)
    | Bin(data: Bytes)
    | Arr(items: seq<Value>)
    | Map(entries: seq<Entry>)
    | Timestamp(sec: int, nsec: int)
    | Ext(typ: int, payload: Bytes)

  datatype Entry = Entry(key: Value, val: Value)

  /** What the converter takes from outside: the names given to extension types, and the
      text produced by library formatting that is not spelled out here (`%g`, RFC 3339
      times, and `%q` on a maximal run of non-ASCII bytes). */
  datatype Formats = Formats(
    extNames: map<int, string>,
    float: (nat, nat) -> string,
    time: (int, int) -> string,
    quoteRun: Bytes -> string)

  // ---------- big-endian numbers ----------

  function Pow256(w: nat): (p: int)
    ensures p > 0
  {
    if w == 0 then 1 else 256 * Pow256(w - 1)
  }

  function BigEndian(n: nat, w: nat): (bs: Bytes)
    ensures |bs| == w
  {
    if w == 0 then [] else BigEndian(n / 256, w - 1) + [n % 256]
  }

  function FromBigEndian(bs: Bytes): nat
  {
    if bs == [] then 0 else FromBigEndian(bs[..|bs| - 1]) * 256 + bs[|bs| - 1]
  }

  // Two's complement in w bytes, both ways.
  function Unsigned(n: int, w: nat): int
  {
    if n < 0 then n + Pow256(w) else n
  }

  function Signed(n: nat, w: nat): int
  {
    if 2 * n >= Pow256(w) then n - Pow256(w) else n
  }

  predicate FitsSigned(n: int, w: nat)
  {
    -Pow256(w) <= 2 * n < Pow256(w)
  }

  function Zeros(n: nat): (bs: Bytes)
    ensures |bs| == n && forall i :: 0 <= i < n ==> bs[i] == 0
  {
    seq(n, _ => 0)
  }

  // ---------- legal wire encodings (MessagePack specification, section "Formats") ----------

  datatype Kind = StrKind | BinKind | ArrKind | MapKind | ExtKind

  /** h announces n bytes or elements of the given kind. */
  predicate Header(kind: Kind, n: nat, h: Bytes)
  {
    match kind
    case StrKind => (n < 32 && h == [0xa0 + n]) || Sized(0xd9, 1, n, h) || Sized(0xda, 2, n, h) || Sized(0xdb, 4, n, h)
    case BinKind => Sized(0xc4, 1, n, h) || Sized(0xc5, 2, n, h) || Sized(0xc6, 4, n, h)
    case ArrKind => (n < 16 && h == [0x90 + n]) || Sized(0xdc, 2, n, h) || Sized(0xdd, 4, n, h)
    case MapKind => (n < 16 && h == [0x80 + n]) || Sized(0xde, 2, n, h) || Sized(0xdf, 4, n, h)
    case ExtKind =>
      || (n == 1 && h == [0xd4]) || (n == 2 && h == [0xd5]) || (n == 4 && h == [0xd6])
      || (n == 8 && h == [0xd7]) || (n == 16 && h == [0xd8])
      || Sized(0xc7, 1, n, h) || Sized(0xc8, 2, n, h) || Sized(0xc9, 4, n, h)
  }

  predicate Sized(prefix: Byte, w: nat, n: nat, h: Bytes)
  {
    n < Pow256(w) && h == [prefix] + BigEndian(n, w)
  }

  predicate SizedInt(prefix: Byte, w: nat, n: int, e: Bytes)
  {
    FitsSigned(n, w) && e == [prefix] + BigEndian(Unsigned(n, w), w)
  }

  predicate EncodesInt(n: int, e: Bytes)
  {
    || (0 <= n < 128 && e == [n])
    || (-32 <= n < 0 && e == [n + 256])
    || (n >= 0 && (Sized(0xcc, 1, n, e) || Sized(0xcd, 2, n, e) || Sized(0xce, 4, n, e) || Sized(0xcf, 8, n, e)))
    || SizedInt(0xd0, 1, n, e) || SizedInt(0xd1, 2, n, e) || SizedInt(0xd2, 4, n, e) || SizedInt(0xd3, 8, n, e)
  }

  /** The three layouts of the Timestamp extension type, with whatever nanoseconds fit their field.
      The specification allows 999999999 at most; the decoder does not look. */
  predicate EncodesTime(sec: int, nsec: int, data: Bytes)
  {
    || (0 <= sec < Pow256(4) && nsec == 0 && data == BigEndian(sec, 4))
    || (0 <= sec < 0x4_0000_0000 && 0 <= nsec < 0x4000_0000 && data == BigEndian(nsec * 0x4_0000_0000 + sec, 8))
    || (FitsSigned(sec, 8) && 0 <= nsec < Pow256(4) && data == BigEndian(nsec, 4) + BigEndian(Unsigned(sec, 8), 8))
  }

  /** e is a header of the given kind, k bytes long, announcing n, followed by something. */
  predicate HeaderAt(kind: Kind, n: nat, e: Bytes, k: nat)
  {
    k <= |e| && Header(kind, n, e[..k])
  }

  ghost predicate EncodesExt(typ: int, data: Bytes, e: Bytes)
  {
    exists k: nat ::
      && HeaderAt(ExtKind, |data|, e, k)
      && e[k..] == [if typ < 0 then typ + 256 else typ] + data
  }

  ghost predicate Encodes(v: Value, e: Bytes)
    decreases v, 1
  {
    match v
    case Nil => e == [0xc0]
    case Bool(b) => e == [if b then 0xc3 else 0xc2]
    case Int(n) => EncodesInt(n, e)
    case Float(w, bits) => (w == 4 && Sized(0xca, 4, bits, e)) || (w == 8 && Sized(0xcb, 8, bits, e))
    case Str(s) => exists k: nat :: HeaderAt(StrKind, |s|, e, k) && e[k..] == s
    case Bin(s) => exists k: nat :: HeaderAt(BinKind, |s|, e, k) && e[k..] == s
    case Arr(vs) => exists k: nat :: HeaderAt(ArrKind, |vs|, e, k) && EncodesItems(vs, e[k..])
    case Map(es) => exists k: nat :: HeaderAt(MapKind, |es|, e, k) && EncodesEntries(es, e[k..])
    case Timestamp(sec, nsec) => exists data: Bytes :: EncodesTime(sec, nsec, data) && EncodesExt(-1, data, e)
    case Ext(typ, data) => -128 <= typ < 128 && typ != -1 && EncodesExt(typ, data, e)
  }

  ghost predicate EncodesItems(vs: seq<Value>, e: Bytes)
    decreases vs, 0
  {
    if vs == [] then e == []
    else exists k: nat :: k <= |e| && Encodes(vs[0], e[..k]) && EncodesItems(vs[1..], e[k..])
  }

  ghost predicate EncodesEntries(es: seq<Entry>, e: Bytes)
    decreases es, 0
  {
    if es == [] then e == []
    else exists k: nat, m: nat ::
      && k <= m <= |e|
      && EncodesEntry(es[0], e[..k], e[k..m])
      && EncodesEntries(es[1..], e[m..])
  }

  ghost predicate EncodesEntry(e: Entry, key: Bytes, val: Bytes)
    decreases e, 2
  {
    Encodes(e.key, key) && Encodes(e.val, val)
  }

  // ---------- the JSON text of a value ----------

  function Digit(d: nat): char
    requires d < 16
  {
    "0123456789abcdef"[d]
  }

  function Natural(n: nat): (s: string)
    ensures |s| > 0
  {
    if n < 10 then [Digit(n)] else Natural(n / 10) + [Digit(n % 10)]
  }

  function Decimal(n: int): (s: string)
    ensures |s| > 0
  {
    if n < 0 then "-" + Natural(-n) else Natural(n)
  }

  function Hex(bs: Bytes): string
  {
    if bs == [] then "" else [Digit(bs[0] / 16), Digit(bs[0] % 16)] + Hex(bs[1..])
  }

  /** One ASCII byte inside a `%q` literal. */
  function EscapeAscii(b: Byte): string
    requires b < 0x80
  {
    if b == '\"' as int || b == '\\' as int then ['\\', b as char]
    else if 0x20 <= b < 0x7f then [b as char]
    else match b
      case 7 => "\\a"
      case 8 => "\\b"
      case 9 => "\\t"
      case 10 => "\\n"
      case 11 => "\\v"
      case 12 => "\\f"
      case 13 => "\\r"
      case _ => "\\x" + Hex([b])
  }

  /** Length of the maximal run of non-ASCII bytes at the front. */
  function RunLength(s: Bytes): (n: nat)
    ensures n <= |s|
    ensures s != [] && s[0] >= 0x80 ==> n > 0
    ensures forall i :: 0 <= i < n ==> s[i] >= 0x80
  {
    if s == [] || s[0] < 0x80 then 0 else 1 + RunLength(s[1..])
  }

  function QuoteBody(f: Formats, s: Bytes): string
    decreases |s|
  {
    if s == [] then ""
    else if s[0] < 0x80 then EscapeAscii(s[0]) + QuoteBody(f, s[1..])
    else f.quoteRun(s[..RunLength(s)]) + QuoteBody(f, s[RunLength(s)..])
  }

  function Quote(f: Formats, s: Bytes): string
  {
    "\"" + QuoteBody(f, s) + "\""
  }

  function HexString(bs: Bytes): string
  {
    "\"" + Hex(bs) + "\""
  }

  /** Text given by the program, as the bytes it is made of (its characters are below 256). */
  function BytesOf(s: string): Bytes
  {
    seq(|s|, i requires 0 <= i < |s| => s[i] as int % 256)
  }

  function Label(f: Formats, typ: int): string
  {
    if typ in f.extNames then Quote(f, BytesOf(f.extNames[typ])) else Decimal(typ)
  }

  function RenderExt(f: Formats, typ: int, data: Bytes): string
  {
    "[" + Label(f, typ) + ", " + HexString(data) + "]"
  }

  function RenderTime(f: Formats, sec: int, nsec: int): string
  {
    Quote(f, BytesOf(f.time(sec, nsec)))
  }

  function Render(f: Formats, v: Value): string
    decreases v, 1
  {
    match v
    case Nil => "null"
    case Bool(b) => if b then "true" else "false"
    case Int(n) => Decimal(n)
    case Float(w, bits) => f.float(w, bits)
    case Str(s) => Quote(f, s)
    case Bin(s) => HexString(s)
    case Arr(vs) => "[" + RenderItems(f, vs, true) + "]"
    case Map(es) => "{" + RenderEntries(f, es, true) + "}"
    case Timestamp(sec, nsec) => RenderTime(f, sec, nsec)
    case Ext(typ, data) => RenderExt(f, typ, data)
  }

  function Separator(first: bool): string
  {
    if first then "" else ", "
  }

  function RenderItems(f: Formats, vs: seq<Value>, first: bool): string
    decreases vs, 0
  {
    if vs == [] then ""
    else Separator(first) + Render(f, vs[0]) + RenderItems(f, vs[1..], false)
  }

  function RenderEntries(f: Formats, es: seq<Entry>, first: bool): string
    decreases es, 0
  {
    if es == [] then ""
    else Separator(first) + RenderEntry(f, es[0]) + RenderEntries(f, es[1..], false)
  }

  function RenderEntry(f: Formats, e: Entry): string
    decreases e, 2
  {
    Render(f, e.key) + ": " + Render(f, e.val)
  }

  // ---------- the decoder as a function ----------

  datatype Error = EOF | UnexpectedEOF | UnknownPrefix(p: Byte) | BadTimestamp(size: nat)

  /** What a call wrote, and the bytes it left unread. */
  datatype Result =
    | Done(out: string, rest: Bytes)
    | Fail(out: string, rest: Bytes, err: Error)
  {
    function After(text: string): Result {
      this.(out := text + out)
    }
  }

  function Min(a: nat, b: nat): nat {
    if a < b then a else b
  }

  /** The w bytes a fixed-width read sees: missing ones stay zero. */
  function Padded(bs: Bytes, w: nat): (r: Bytes)
    ensures |r| == w
  {
    if w <= |bs| then bs[..w] else bs + Zeros(w - |bs|)
  }

  function ReadUint(bs: Bytes, w: nat): nat {
    FromBigEndian(Padded(bs, w))
  }

  function Skip(bs: Bytes, w: nat): Bytes {
    bs[Min(w, |bs|)..]
  }

  datatype Head =
    | Literal(text: string)
    | Number(n: int)
    | Real(width: nat, bits: nat)
    | Container(kind: Kind, size: nat)
    | Unknown

  /** What a prefix byte announces: a complete head, or one whose number is in the next bytes. */
  datatype Shape =
    | Fixed(head: Head)
    | UintIn(width: nat)
    | IntIn(width: nat)
    | RealIn(width: nat)
    | SizeIn(kind: Kind, width: nat)

  function ShapeOf(p: Byte): Shape
  {
    if p <= 0x7f then Fixed(Number(p))
    else if p <= 0x8f then Fixed(Container(MapKind, p - 0x80))
    else if p <= 0x9f then Fixed(Container(ArrKind, p - 0x90))
    else if p <= 0xbf then Fixed(Container(StrKind, p - 0xa0))
    else if p >= 0xe0 then Fixed(Number(p - 256))
    else match p
      case 0xc0 => Fixed(Literal("null"))
      case 0xc2 => Fixed(Literal("false"))
      case 0xc3 => Fixed(Literal("true"))
      case 0xc4 => SizeIn(BinKind, 1)
      case 0xc5 => SizeIn(BinKind, 2)
      case 0xc6 => SizeIn(BinKind, 4)
      case 0xc7 => SizeIn(ExtKind, 1)
      case 0xc8 => SizeIn(ExtKind, 2)
      case 0xc9 => SizeIn(ExtKind, 4)
      case 0xca => RealIn(4)
      case 0xcb => RealIn(8)
      case 0xcc => UintIn(1)
      case 0xcd => UintIn(2)
      case 0xce => UintIn(4)
      case 0xcf => UintIn(8)
      case 0xd0 => IntIn(1)
      case 0xd1 => IntIn(2)
      case 0xd2 => IntIn(4)
      case 0xd3 => IntIn(8)
      case 0xd4 => Fixed(Container(ExtKind, 1))
      case 0xd5 => Fixed(Container(ExtKind, 2))
      case 0xd6 => Fixed(Container(ExtKind, 4))
      case 0xd7 => Fixed(Container(ExtKind, 8))
      case 0xd8 => Fixed(Container(ExtKind, 16))
      case 0xd9 => SizeIn(StrKind, 1)
      case 0xda => SizeIn(StrKind, 2)
      case 0xdb => SizeIn(StrKind, 4)
      case 0xdc => SizeIn(ArrKind, 2)
      case 0xdd => SizeIn(ArrKind, 4)
      case 0xde => SizeIn(MapKind, 2)
      case 0xdf => SizeIn(MapKind, 4)
      case _ => Fixed(Unknown)
  }

  function WithNumber(shape: Shape, n: nat): Head
    requires !shape.Fixed?
  {
    match shape
    case UintIn(_) => Number(n)
    case IntIn(w) => Number(Signed(n, w))
    case RealIn(w) => Real(w, n)
    case SizeIn(kind, _) => Container(kind, n)
  }

  /** The head that prefix p and the bytes after it make up, and what is left. */
  function ReadHead(p: Byte, bs: Bytes): (r: (Head, Bytes))
    ensures |r.1| <= |bs|
  {
    var shape := ShapeOf(p);
    if shape.Fixed? then (shape.head, bs)
    else (WithNumber(shape, ReadUint(bs, shape.width)), Skip(bs, shape.width))
  }

  /** Why a read of n > 0 bytes that cannot be filled fails; it still consumes what is there. */
  function ShortRead(bs: Bytes): Result {
    Fail("", [], if bs == [] then EOF else UnexpectedEOF)
  }

  function DecodeBlob(f: Formats, kind: Kind, n: nat, bs: Bytes): (r: Result)
    ensures |r.rest| <= |bs|
  {
    if n > |bs| then ShortRead(bs)
    else Done(if kind.StrKind? then Quote(f, bs[..n]) else HexString(bs[..n]), bs[n..])
  }

  function TimeOf(data: Bytes): (int, int)
  {
    match |data|
    case 4 => (FromBigEndian(data), 0)
    case 8 => (FromBigEndian(data) % 0x4_0000_0000, FromBigEndian(data) / 0x4_0000_0000)
    case _ => if |data| < 4 then (0, 0) else (Signed(FromBigEndian(data[4..]), 8), FromBigEndian(data[..4]))
  }

  function DecodeExt(f: Formats, n: nat, bs: Bytes): (r: Result)
    ensures |r.rest| <= |bs|
  {
    if bs == [] then ShortRead(bs)
    else if n > |bs| - 1 then ShortRead(bs[1..])
    else
      var typ, data, rest := Signed(bs[0], 1), bs[1..][..n], bs[1..][n..];
      if typ != -1 then Done(RenderExt(f, typ, data), rest)
      else if n != 4 && n != 8 && n != 12 then Fail("", rest, BadTimestamp(n))
      else Done(RenderTime(f, TimeOf(data).0, TimeOf(data).1), rest)
  }

  function Close(r: Result, bracket: string): Result {
    if r.Done? then r.(out := r.out + bracket) else r
  }

  /** One value.  A success consumes at least one byte. */
  function DecodeNext(f: Formats, bs: Bytes): (r: Result)
    ensures |r.rest| <= |bs|
    ensures r.Done? ==> |r.rest| < |bs|
    decreases |bs|, 0
  {
    if bs == [] then Fail("", bs, EOF)
    else
      var (head, rest) := ReadHead(bs[0], bs[1..]);
      match head
      case Unknown => Fail("", rest, UnknownPrefix(bs[0]))
      case Container(kind, n) => Body(f, kind, n, rest)
      case _ => Done(ScalarText(f, head), rest)
  }

  function ScalarText(f: Formats, head: Head): string
    requires !head.Unknown? && !head.Container?
  {
    match head
    case Literal(text) => text
    case Number(n) => Decimal(n)
    case Real(w, bits) => f.float(w, bits)
  }

  function Body(f: Formats, kind: Kind, n: nat, bs: Bytes): (r: Result)
    ensures |r.rest| <= |bs|
    decreases |bs|, 2
  {
    match kind
    case ArrKind => Close(DecodeItems(f, bs, n, true).After("["), "]")
    case MapKind => Close(DecodeEntries(f, bs, n, true).After("{"), "}")
    case ExtKind => DecodeExt(f, n, bs)
    case _ => DecodeBlob(f, kind, n, bs)
  }

  function DecodeItems(f: Formats, bs: Bytes, n: nat, first: bool): (r: Result)
    ensures |r.rest| <= |bs|
    decreases |bs|, 1
  {
    if n == 0 then Done("", bs)
    else
      var r := DecodeNext(f, bs).After(Separator(first));
      if r.Fail? then r else DecodeItems(f, r.rest, n - 1, false).After(r.out)
  }

  function DecodeEntries(f: Formats, bs: Bytes, n: nat, first: bool): (r: Result)
    ensures |r.rest| <= |bs|
    decreases |bs|, 1
  {
    if n == 0 then Done("", bs)
    else
      var k := DecodeNext(f, bs).After(Separator(first));
      if k.Fail? then k
      else
        var v := DecodeNext(f, k.rest).After(k.out + ": ");
        if v.Fail? then v else DecodeEntries(f, v.rest, n - 1, false).After(v.out)
  }

  /** The text of a whole stream, and the error that ended it; EOF counts as success. */
  datatype Converted = Converted(out: string, err: Error) {
    function After(text: string): Converted {
      this.(out := text + out)
    }
  }

  /** One line per value, until reading a value fails. */
  function Convert(f: Formats, bs: Bytes): Converted
    decreases |bs|
  {
    var r := DecodeNext(f, bs);
    if r.Fail? then Converted(r.out, r.err) else Convert(f, r.rest).After(r.out + "\n")
  }
}
