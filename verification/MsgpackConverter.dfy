/** The converter as it runs: a reader position, a writer and byte buffers changed in place. */
module MsgpackConverter {
  import opened Basics
  import M = Msgpack
  import opened Msgpack

  lemma Filled<T>(data: seq<T>, start: seq<T>, buf: seq<T>, n: nat, k: nat)
    requires n + k <= |data| && n + k <= |start|
    requires buf == data[..n] + start[n..]
    ensures buf[..n] + data[n..][..k] + buf[n + k..] == data[..n + k] + start[n + k..]
    ensures data[n..][k..] == data[n + k..]
  {}

  lemma ReadEnds(data: Bytes, start: Bytes, buf: Bytes, n: nat, eof: bool)
    requires n <= |data| && n <= |start| && buf == data[..n] + start[n..]
    requires if eof then n == |data| && n < |start| else n == |start|
    ensures n == Min(|start|, |data|) && data[n..] == Skip(data, |start|)
    ensures |start| <= |data| ==> buf == data[..|start|]
  {}

  /** An in-memory byte stream. */
  class Reader {
    const data: Bytes
    var pos: nat

    ghost predicate Valid()
      reads this
    {
      pos <= |data|
    }

    ghost function Unread(): Bytes
      requires Valid()
      reads this
    {
      data[pos..]
    }

    constructor (data: Bytes)
      ensures Valid() && Unread() == data
    {
      this.data, pos := data, 0;
    }

    /** One read into buf[off..]: as many bytes as there are, EOF only when there are none. */
    method Read(buf: array<Byte>, off: nat) returns (n: nat, eof: bool)
      requires Valid() && off <= buf.Length
      modifies this, buf
      ensures Valid()
      ensures n == Min(buf.Length - off, |old(Unread())|)
      ensures eof <==> old(Unread()) == [] && off < buf.Length
      ensures Unread() == old(Unread())[n..]
      ensures buf[..] == old(buf[..])[..off] + old(Unread())[..n] + old(buf[..])[off + n..]
    {
      n := Min(buf.Length - off, |data| - pos);
      eof := pos == |data| && off < buf.Length;
      for i := 0 to n
        invariant pos == old(pos)
        invariant buf[..] == old(buf[..off]) + data[pos..pos + i] + old(buf[off + i..])
      {
        buf[off + i] := data[pos + i];
      }
      pos := pos + n;
    }

    /** Reads until buf is full or the stream ends; what was read stays in buf either way. */
    method ReadFull(buf: array<Byte>) returns (err: Option<Error>)
      requires Valid()
      modifies this, buf
      ensures Valid()
      ensures Unread() == Skip(old(Unread()), buf.Length)
      ensures var k := Min(buf.Length, |old(Unread())|);
              buf[..] == old(Unread())[..k] + old(buf[..])[k..]
      ensures buf.Length <= |old(Unread())| ==> buf[..] == old(Unread())[..buf.Length]
      ensures err == if buf.Length <= |old(Unread())| then None
                     else Some(if old(Unread()) == [] then EOF else UnexpectedEOF)
    {
      var n, eof := 0, false;
      ghost var unread, start := Unread(), buf[..];
      assert buf[..] == unread[..0] + start[0..];
      while n < buf.Length && !eof
        invariant Valid() && n <= buf.Length == |start|
        invariant n <= |unread| && Unread() == unread[n..]
        invariant buf[..] == unread[..n] + start[n..]
        invariant eof ==> n == |unread| < buf.Length
        decreases buf.Length - n, !eof
      {
        ghost var before := buf[..];
        var k;
        k, eof := Read(buf, n);
        Filled(unread, start, before, n, k);
        n := n + k;
      }
      ReadEnds(unread, start, buf[..], n, eof);
      err := if n == buf.Length then None else if n == 0 then Some(EOF) else Some(UnexpectedEOF);
    }
  }

  class Writer {
    var text: string

    constructor ()
      ensures text == ""
    {
      text := "";
    }

    method Print(s: string)
      modifies this
      ensures text == old(text) + s
    {
      text := text + s;
    }
  }

  // ---------- regrouping what the loops have written ----------

  lemma ResultAfter(r: Result, a: string, b: string)
    ensures r.After(b).After(a) == r.After(a + b)
  {
    assert a + (b + r.out) == a + b + r.out;
  }

  lemma TextAfter(text: string, a: string, b: string, c: string)
    ensures text + a + b + c == text + a + (b + c)
    ensures text + a + b + c == text + (a + (b + c))
    ensures text + (a + b) == text + a + b
    ensures text + "" == text && a + "" == a
  {}

  /** Element i of size comes next: done is written after the bracket, bs is unread. */
  ghost predicate ArrayAt(f: Formats, all: Bytes, size: nat, start: string, i: nat, done: string, bs: Bytes,
                          text: string)
  {
    && i <= size && |bs| <= |all|
    && text == start + "[" + done
    && DecodeItems(f, all, size, true) == DecodeItems(f, bs, size - i, i == 0).After(done)
  }

  lemma ArrayStep(f: Formats, all: Bytes, size: nat, start: string, i: nat, done: string, bs: Bytes, text: string)
    requires ArrayAt(f, all, size, start, i, done, bs, text) && i < size
    ensures var r, sep := M.DecodeNext(f, bs), Separator(i == 0);
            if r.Done? then ArrayAt(f, all, size, start, i + 1, done + (sep + r.out), r.rest, text + sep + r.out)
            else Ran(Body(f, ArrKind, size, all), start, text + sep + r.out, r.rest, Some(r.err))
  {
    var r, sep := M.DecodeNext(f, bs), Separator(i == 0);
    TextAfter(start + "[", done, sep, r.out);
    if r.Done? {
      ResultAfter(DecodeItems(f, r.rest, size - i - 1, false), done, sep + r.out);
    } else {
      TextAfter(start, "[", done, sep + r.out);
    }
  }

  lemma ArrayEnd(f: Formats, all: Bytes, size: nat, start: string, done: string, bs: Bytes, text: string)
    requires ArrayAt(f, all, size, start, size, done, bs, text)
    ensures Ran(Body(f, ArrKind, size, all), start, text + "]", bs, None)
  {
    TextAfter(start, "[", done, "]");
    assert done + "" == done;
  }

  ghost predicate MapAt(f: Formats, all: Bytes, size: nat, start: string, i: nat, done: string, bs: Bytes, text: string)
  {
    && i <= size && |bs| <= |all|
    && text == start + "{" + done
    && DecodeEntries(f, all, size, true) == DecodeEntries(f, bs, size - i, i == 0).After(done)
  }

  lemma MapStep(f: Formats, all: Bytes, size: nat, start: string, i: nat, done: string, bs: Bytes, text: string)
    requires MapAt(f, all, size, start, i, done, bs, text) && i < size
    ensures var k, sep := M.DecodeNext(f, bs), Separator(i == 0);
            if k.Fail? then Ran(Body(f, MapKind, size, all), start, text + sep + k.out, k.rest, Some(k.err))
            else
              var v, key := M.DecodeNext(f, k.rest), sep + k.out + ": ";
              if v.Fail? then Ran(Body(f, MapKind, size, all), start, text + key + v.out, v.rest, Some(v.err))
              else MapAt(f, all, size, start, i + 1, done + (key + v.out), v.rest, text + key + v.out)
  {
    var k, sep := M.DecodeNext(f, bs), Separator(i == 0);
    TextAfter(start + "{", done, sep, k.out);
    if k.Fail? {
      TextAfter(start, "{", done, sep + k.out);
    } else {
      var v, key := M.DecodeNext(f, k.rest), sep + k.out + ": ";
      TextAfter(start + "{", done, key, v.out);
      if v.Fail? {
        TextAfter(start, "{", done, key + v.out);
      } else {
        ResultAfter(DecodeEntries(f, v.rest, size - i - 1, false), done, key + v.out);
      }
    }
  }

  lemma MapEnd(f: Formats, all: Bytes, size: nat, start: string, done: string, bs: Bytes, text: string)
    requires MapAt(f, all, size, start, size, done, bs, text)
    ensures Ran(Body(f, MapKind, size, all), start, text + "}", bs, None)
  {
    TextAfter(start, "{", done, "}");
    assert done + "" == done;
  }

  lemma ConvertLoop(f: Formats, bs: Bytes, done: string)
    requires M.DecodeNext(f, bs).Done?
    ensures var r := M.DecodeNext(f, bs);
            M.Convert(f, bs).After(done) == M.Convert(f, r.rest).After(done + (r.out + "\n"))
  {
    var r := M.DecodeNext(f, bs);
    var more := M.Convert(f, r.rest).out;
    assert done + (r.out + "\n" + more) == done + (r.out + "\n") + more;
  }

  lemma SizedHead(p: Byte, bs: Bytes)
    requires 0xc4 <= p <= 0xc6 || 0xd9 <= p <= 0xdf
    ensures var shape := ShapeOf(p);
            shape.SizeIn? && ReadHead(p, bs)
                == (Container(shape.kind, M.ReadUint(bs, shape.width)), Skip(bs, shape.width))
  {}

  lemma ExtHead(p: Byte, bs: Bytes)
    requires 0xc7 <= p <= 0xc9 || 0xd4 <= p <= 0xd8
    ensures var shape := ShapeOf(p);
            ReadHead(p, bs) == if shape.Fixed? then (shape.head, bs)
                               else (WithNumber(shape, M.ReadUint(bs, shape.width)), Skip(bs, shape.width))
  {}

  lemma ScalarHead(p: Byte, bs: Bytes)
    requires p == 0xc0 || p == 0xc2 || p == 0xc3 || 0xca <= p <= 0xd3
    ensures var shape := ShapeOf(p);
            ReadHead(p, bs) == if shape.Fixed? then (shape.head, bs)
                               else (WithNumber(shape, M.ReadUint(bs, shape.width)), Skip(bs, shape.width))
  {}

  /** What a call that behaves as r does to the writer, the reader and its caller. */
  predicate Ran(r: Result, before: string, after: string, unread: Bytes, err: Option<Error>)
  {
    && after == before + r.out
    && unread == r.rest
    && err == if r.Done? then None else Some(r.err)
  }

  class MsgpackJsonConverter {
    const formats: Formats

    constructor (formats: Formats)
      ensures this.formats == formats
    {
      this.formats := formats;
    }

    /** Convert a whole stream; nil only at an end of input. */
    method Convert(r: Reader, w: Writer) returns (err: Option<Error>)
      requires r.Valid()
      modifies r, w
      ensures r.Valid()
      ensures var c := M.Convert(formats, old(r.Unread()));
              w.text == old(w.text) + c.out && err == if c.err == EOF then None else Some(c.err)
    {
      ghost var done := "";
      while true
        invariant r.Valid()
        invariant w.text == old(w.text) + done
        invariant M.Convert(formats, old(r.Unread())) == M.Convert(formats, r.Unread()).After(done)
        decreases |r.Unread()|
      {
        ghost var unread := r.Unread();
        err := DecodeNext(r, w);
        TextAfter(old(w.text), done, M.DecodeNext(formats, unread).out, "");
        if err == Some(EOF) {
          return None;
        }
        if err != None {
          return;
        }
        w.Print("\n");
        ghost var line := M.DecodeNext(formats, unread).out;
        ConvertLoop(formats, unread, done);
        TextAfter(old(w.text), done, line, "\n");
        done := done + (line + "\n");
      }
    }

    method ReadUint(r: Reader, width: nat) returns (n: nat)
      requires r.Valid()
      modifies r
      ensures r.Valid()
      ensures n == M.ReadUint(old(r.Unread()), width)
      ensures r.Unread() == Skip(old(r.Unread()), width)
    {
      var b := new Byte[width](_ => 0);
      ghost var unread := r.Unread();
      var _ := r.ReadFull(b);
      assert b[..] == Padded(unread, width);
      n := FromBigEndian(b[..]);
    }

    method PrintStr(r: Reader, w: Writer, size: nat) returns (err: Option<Error>)
      requires r.Valid()
      modifies r, w
      ensures r.Valid()
      ensures Ran(Body(formats, StrKind, size, old(r.Unread())), old(w.text), w.text, r.Unread(), err)
    {
      var buf := new Byte[size](_ => 0);
      err := r.ReadFull(buf);
      assert w.text == w.text + "";
      if err != None {
        return;
      }
      w.Print(Quote(formats, buf[..]));
    }

    method PrintBin(r: Reader, w: Writer, size: nat) returns (err: Option<Error>)
      requires r.Valid()
      modifies r, w
      ensures r.Valid()
      ensures Ran(Body(formats, BinKind, size, old(r.Unread())), old(w.text), w.text, r.Unread(), err)
    {
      var buf := new Byte[size](_ => 0);
      err := r.ReadFull(buf);
      assert w.text == w.text + "";
      if err != None {
        return;
      }
      w.Print(HexString(buf[..]));
    }

    method DecodeExtension(r: Reader, w: Writer, size: nat) returns (err: Option<Error>)
      requires r.Valid()
      modifies r, w
      ensures r.Valid()
      ensures Ran(Body(formats, ExtKind, size, old(r.Unread())), old(w.text), w.text, r.Unread(), err)
    {
      var typBuf := new Byte[1](_ => 0);
      err := r.ReadFull(typBuf);
      assert w.text == w.text + "";
      if err != None {
        return;
      }
      var typ := Signed(typBuf[0], 1);
      var data := new Byte[size](_ => 0);
      err := r.ReadFull(data);
      if err != None {
        return;
      }
      if typ == -1 {
        var sec, nsec := 0, 0;
        match size {
          case 4 =>
            sec := FromBigEndian(data[..]);
          case 8 =>
            var val := FromBigEndian(data[..]);
            nsec := val / 0x4_0000_0000;
            sec := val % 0x4_0000_0000;
          case 12 =>
            nsec := FromBigEndian(data[..4]);
            sec := Signed(FromBigEndian(data[4..]), 8);
          case _ =>
            err := Some(BadTimestamp(size));
            return;
        }
        w.Print(RenderTime(formats, sec, nsec));
        return;
      }
      w.Print(RenderExt(formats, typ, data[..]));
    }

    method DecodeArray(r: Reader, w: Writer, size: nat) returns (err: Option<Error>)
      requires r.Valid()
      modifies r, w
      ensures r.Valid()
      ensures Ran(Body(formats, ArrKind, size, old(r.Unread())), old(w.text), w.text, r.Unread(), err)
      decreases |r.Unread()|, 1
    {
      hide M.DecodeNext, Body, DecodeItems;
      ghost var all, start, done := r.Unread(), w.text, "";
      w.Print("[");
      ResultAfter(DecodeItems(formats, all, size, true), "", "");
      for i := 0 to size
        invariant r.Valid()
        invariant ArrayAt(formats, all, size, start, i, done, r.Unread(), w.text)
      {
        ghost var unread, text, sep := r.Unread(), w.text, Separator(i == 0);
        ArrayStep(formats, all, size, start, i, done, unread, text);
        assert text + "" == text;
        if i > 0 {
          w.Print(", ");
        }
        err := DecodeNext(r, w);
        if err != None {
          return;
        }
        done := done + (sep + M.DecodeNext(formats, unread).out);
      }
      ArrayEnd(formats, all, size, start, done, r.Unread(), w.text);
      w.Print("]");
      err := None;
    }

    method DecodeMap(r: Reader, w: Writer, size: nat) returns (err: Option<Error>)
      requires r.Valid()
      modifies r, w
      ensures r.Valid()
      ensures Ran(Body(formats, MapKind, size, old(r.Unread())), old(w.text), w.text, r.Unread(), err)
      decreases |r.Unread()|, 1
    {
      hide M.DecodeNext, Body, DecodeEntries;
      ghost var all, start, done := r.Unread(), w.text, "";
      w.Print("{");
      for i := 0 to size
        invariant r.Valid()
        invariant MapAt(formats, all, size, start, i, done, r.Unread(), w.text)
      {
        ghost var unread, text, sep := r.Unread(), w.text, Separator(i == 0);
        MapStep(formats, all, size, start, i, done, unread, text);
        assert text + "" == text;
        if i > 0 {
          w.Print(", ");
        }
        err := DecodeNext(r, w);
        if err != None {
          return;
        }
        ghost var k := M.DecodeNext(formats, unread);
        w.Print(": ");
        assert w.text == text + (sep + k.out + ": ");
        err := DecodeNext(r, w);
        if err != None {
          return;
        }
        done := done + (sep + k.out + ": " + M.DecodeNext(formats, k.rest).out);
      }
      MapEnd(formats, all, size, start, done, r.Unread(), w.text);
      w.Print("}");
      err := None;
    }

    // The switch on the prefix, in four methods: the whole of it, and the cases from 0xc0 to
    // 0xdf that are scalars, carry a size, or are extensions.
    method DecodeNext(r: Reader, w: Writer) returns (err: Option<Error>)
      requires r.Valid()
      modifies r, w
      ensures r.Valid()
      ensures Ran(M.DecodeNext(formats, old(r.Unread())), old(w.text), w.text, r.Unread(), err)
      decreases |r.Unread()|, 0
    {
      hide Body, DecodeExt, DecodeBlob;
      assert w.text + "" == w.text;
      var prefix := new Byte[1](_ => 0);
      var _, eof := r.Read(prefix, 0);
      if eof {
        return Some(EOF);
      }
      var p: int := prefix[0];
      err := None;
      if p <= 0x7f {
        w.Print(Decimal(p));
      } else if 0x80 <= p <= 0x8f {
        err := DecodeMap(r, w, p - 0x80);
      } else if 0x90 <= p <= 0x9f {
        err := DecodeArray(r, w, p - 0x90);
      } else if 0xa0 <= p <= 0xbf {
        err := PrintStr(r, w, p - 0xa0);
      } else if p >= 0xe0 {
        w.Print(Decimal(p - 256));
      } else if p == 0xc1 {
        err := Some(UnknownPrefix(p));
      } else if p <= 0xc3 || 0xca <= p <= 0xd3 {
        DecodeScalar(r, w, p);
      } else if 0xc7 <= p <= 0xc9 || 0xd4 <= p <= 0xd8 {
        err := DecodeExtended(r, w, p);
      } else {
        err := DecodeSized(r, w, p);
      }
    }

    method DecodeScalar(r: Reader, w: Writer, p: Byte)
      requires r.Valid()
      requires p == 0xc0 || p == 0xc2 || p == 0xc3 || 0xca <= p <= 0xd3
      modifies r, w
      ensures r.Valid()
      ensures var (head, rest) := ReadHead(p, old(r.Unread()));
              && !head.Unknown? && !head.Container?
              && w.text == old(w.text) + ScalarText(formats, head) && r.Unread() == rest
    {
      hide ReadHead, M.ReadUint, Skip, Decimal, Signed;
      ScalarHead(p, r.Unread());
      var n;
      match p {
        case 0xc0 =>
          w.Print("null");
        case 0xc2 =>
          w.Print("false");
        case 0xc3 =>
          w.Print("true");
        case 0xca =>
          n := ReadUint(r, 4);
          w.Print(formats.float(4, n));
        case 0xcb =>
          n := ReadUint(r, 8);
          w.Print(formats.float(8, n));
        case 0xcc =>
          n := ReadUint(r, 1);
          w.Print(Decimal(n));
        case 0xcd =>
          n := ReadUint(r, 2);
          w.Print(Decimal(n));
        case 0xce =>
          n := ReadUint(r, 4);
          w.Print(Decimal(n));
        case 0xcf =>
          n := ReadUint(r, 8);
          w.Print(Decimal(n));
        case 0xd0 =>
          n := ReadUint(r, 1);
          w.Print(Decimal(Signed(n, 1)));
        case 0xd1 =>
          n := ReadUint(r, 2);
          w.Print(Decimal(Signed(n, 2)));
        case 0xd2 =>
          n := ReadUint(r, 4);
          w.Print(Decimal(Signed(n, 4)));
        case 0xd3 =>
          n := ReadUint(r, 8);
          w.Print(Decimal(Signed(n, 8)));
      }
    }

    method DecodeSized(r: Reader, w: Writer, p: Byte) returns (err: Option<Error>)
      requires r.Valid()
      requires 0xc4 <= p <= 0xc6 || 0xd9 <= p <= 0xdf
      modifies r, w
      ensures r.Valid()
      ensures var (head, rest) := ReadHead(p, old(r.Unread()));
              head.Container? && Ran(Body(formats, head.kind, head.size, rest), old(w.text), w.text, r.Unread(), err)
      decreases |r.Unread()|, 2
    {
      hide Ran, Body, DecodeExt, DecodeBlob, M.DecodeNext, ReadHead, M.ReadUint, Skip;
      SizedHead(p, r.Unread());
      var n;
      if p == 0xd9 {
        n := ReadUint(r, 1);
        err := PrintStr(r, w, n);
      } else if p == 0xda {
        n := ReadUint(r, 2);
        err := PrintStr(r, w, n);
      } else if p == 0xdb {
        n := ReadUint(r, 4);
        err := PrintStr(r, w, n);
      } else if p == 0xdc {
        n := ReadUint(r, 2);
        err := DecodeArray(r, w, n);
      } else if p == 0xdd {
        n := ReadUint(r, 4);
        err := DecodeArray(r, w, n);
      } else if p == 0xde {
        n := ReadUint(r, 2);
        err := DecodeMap(r, w, n);
      } else if p == 0xdf {
        n := ReadUint(r, 4);
        err := DecodeMap(r, w, n);
      } else if p == 0xc4 {
        n := ReadUint(r, 1);
        err := PrintBin(r, w, n);
      } else if p == 0xc5 {
        n := ReadUint(r, 2);
        err := PrintBin(r, w, n);
      } else {
        n := ReadUint(r, 4);
        err := PrintBin(r, w, n);
      }
    }

    method DecodeExtended(r: Reader, w: Writer, p: Byte) returns (err: Option<Error>)
      requires r.Valid()
      requires 0xc7 <= p <= 0xc9 || 0xd4 <= p <= 0xd8
      modifies r, w
      ensures r.Valid()
      ensures var (head, rest) := ReadHead(p, old(r.Unread()));
              head.Container? && Ran(Body(formats, head.kind, head.size, rest), old(w.text), w.text, r.Unread(), err)
    {
      hide Ran, Body, DecodeExt, Skip, ReadHead, M.ReadUint;
      ExtHead(p, r.Unread());
      var n;
      if 0xd4 <= p <= 0xd8 {
        var sizes := map[0xd4 := 1, 0xd5 := 2, 0xd6 := 4, 0xd7 := 8, 0xd8 := 16];
        err := DecodeExtension(r, w, sizes[p]);
      } else if p == 0xc7 {
        n := ReadUint(r, 1);
        err := DecodeExtension(r, w, n);
      } else if p == 0xc8 {
        n := ReadUint(r, 2);
        err := DecodeExtension(r, w, n);
      } else {
        n := ReadUint(r, 4);
        err := DecodeExtension(r, w, n);
      }
    }
  }
}
