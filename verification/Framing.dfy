/**
 The stream a generator's values are sent in, newline-delimited JSON or server-sent events,
 and the client that splits it again.
 */
module Framing {
  import opened Basics
  import opened Msgpack
  import opened MsgpackComplete
  import opened MsgpackConverter
  import EventStream
  import opened Sequences

  // ---------- rendered text fits on a line ----------

  predicate OneLine(s: string) {
    forall c :: c in s ==> c != '\n' && c != '\r'
  }

  predicate Visible(s: string) {
    s != "" && '!' <= s[0] <= '~'
  }

  /** Text that a line scanner gives back as it is, and that is not blank. */
  predicate LineText(t: string) {
    OneLine(t) && Visible(t)
  }

  /** What is assumed of the library's own text: `%g` prints something, and neither it nor
      `%q` on non-ASCII bytes prints a line break. */
  ghost predicate Sane(f: Formats) {
    && (forall w, bits :: Visible(f.float(w, bits)) && OneLine(f.float(w, bits)))
    && (forall run :: OneLine(f.quoteRun(run)))
  }

  lemma {:induction false} NaturalVisible(n: nat)
    ensures Visible(Natural(n)) && OneLine(Natural(n))
  {
    if n >= 10 {
      NaturalVisible(n / 10);
    }
  }

  lemma {:induction false} HexOneLine(s: Bytes)
    ensures OneLine(Hex(s))
  {
    if s != [] {
      HexOneLine(s[1..]);
    }
  }

  lemma {:induction false} QuoteOneLine(f: Formats, s: Bytes)
    requires Sane(f)
    ensures OneLine(QuoteBody(f, s))
    decreases |s|
  {
    if s != [] {
      if s[0] < 0x80 {
        HexOneLine([s[0]]);
        QuoteOneLine(f, s[1..]);
      } else {
        QuoteOneLine(f, s[RunLength(s)..]);
      }
    }
  }

  lemma QuotedLine(f: Formats, s: Bytes)
    requires Sane(f)
    ensures LineText(Quote(f, s))
  {
    QuoteOneLine(f, s);
  }

  lemma HexLine(s: Bytes)
    ensures LineText(HexString(s))
  {
    HexOneLine(s);
  }

  lemma DecimalLine(n: int)
    ensures LineText(Decimal(n))
  {
    NaturalVisible(if n < 0 then -n else n);
  }

  lemma BracketLine(open: string, body: string, close: string)
    requires LineText(open) && OneLine(body) && OneLine(close)
    ensures LineText(open + body + close)
  {}

  lemma {:induction false} RenderOneLine(f: Formats, v: Value)
    requires Sane(f)
    ensures LineText(Render(f, v))
    decreases v, 1
  {
    hide OneLine, Visible, Quote, HexString, Decimal;
    SmallTexts();
    match v
    case Int(n) => DecimalLine(n);
    case Str(s) => QuotedLine(f, s);
    case Bin(s) => HexLine(s);
    case Arr(vs) =>
      ItemsOneLine(f, vs, true);
      BracketLine("[", RenderItems(f, vs, true), "]");
    case Map(es) =>
      EntriesOneLine(f, es, true);
      BracketLine("{", RenderEntries(f, es, true), "}");
    case Timestamp(sec, nsec) => QuotedLine(f, BytesOf(f.time(sec, nsec)));
    case Ext(typ, data) =>
      HexLine(data);
      if typ in f.extNames {
        QuotedLine(f, BytesOf(f.extNames[typ]));
      } else {
        DecimalLine(typ);
      }
      BracketLine("[", Label(f, typ), ", ");
      BracketLine("[" + Label(f, typ) + ", ", HexString(data), "]");
    case _ =>
  }

  lemma SmallTexts()
    ensures OneLine("]") && OneLine("}") && OneLine(", ") && LineText("[") && LineText("{")
    ensures LineText("null") && LineText("true") && LineText("false")
  {}

  lemma {:induction false} ItemsOneLine(f: Formats, vs: seq<Value>, first: bool)
    requires Sane(f)
    ensures OneLine(RenderItems(f, vs, first))
    decreases vs, 0
  {
    if vs != [] {
      RenderOneLine(f, vs[0]);
      ItemsOneLine(f, vs[1..], false);
    }
  }

  lemma {:induction false} EntriesOneLine(f: Formats, es: seq<Entry>, first: bool)
    requires Sane(f)
    ensures OneLine(RenderEntries(f, es, first))
    decreases es, 0
  {
    if es != [] {
      EntryOneLine(f, es[0]);
      EntriesOneLine(f, es[1..], false);
    }
  }

  lemma {:induction false} EntryOneLine(f: Formats, e: Entry)
    requires Sane(f)
    ensures OneLine(RenderEntry(f, e))
    decreases e, 2
  {
    RenderOneLine(f, e.key);
    RenderOneLine(f, e.val);
  }

  // ---------- the server ----------

  datatype Format = Ndjson | Sse

  const PREFIX := "data: "

  /** One yielded value on the wire; text ends in the newline the converter writes. */
  function Frame(format: Format, text: string): string {
    if format.Sse? then PREFIX + text + "\n\n" else text + "\n"
  }

  function Stream(format: Format, texts: seq<string>): string {
    if texts == [] then "" else Frame(format, texts[0] + "\n") + Stream(format, texts[1..])
  }

  function Texts(f: Formats, vs: seq<Value>): seq<string> {
    seq(|vs|, i requires 0 <= i < |vs| => Render(f, vs[i]))
  }

  class Server {
    const converter: MsgpackJsonConverter

    constructor (converter: MsgpackJsonConverter)
      ensures this.converter == converter
    {
      this.converter := converter;
    }

    /** Encoded bytes to JSON, or nothing when they cannot be converted. */
    method ForgivingJson(encoded: Bytes) returns (text: string)
      ensures var c := Convert(converter.formats, encoded); text == if c.err == EOF then c.out else ""
    {
      var r := new Reader(encoded);
      var w := new Writer();
      var err := converter.Convert(r, w);
      text := if err == Option.None then w.text else "";
    }

    /** Sends every value received on the channel, each encoded as MessagePack. */
    method HandleGenerator(format: Format, ghost vs: seq<Value>, channel: seq<Bytes>, w: Writer)
      requires |vs| == |channel| && forall i :: 0 <= i < |vs| ==> Encodes(vs[i], channel[i])
      modifies w
      ensures TextsOf(converter.formats, vs, Texts(converter.formats, vs))
      ensures w.text == old(w.text) + Stream(format, Texts(converter.formats, vs))
      ensures Sane(converter.formats) ==> Sent(converter.formats, format, vs, w.text[|old(w.text)|..])
    {
      ghost var texts := Texts(converter.formats, vs);
      ghost var start := w.text;
      Empty(start);
      hide Encodes, Stream, Render;
      NothingStreamed(format);
      for i := 0 to |channel|
        invariant w.text == start + Stream(format, texts[..i])
      {
        var text := ForgivingJson(channel[i]);
        OneValue(converter.formats, vs[i], channel[i]);
        Streamed(format, start, texts, i);
        match format {
          case Sse =>
            w.Print("data: " + text + "\n\n");
          case Ndjson =>
            w.Print(text);
            w.Print("\n");
        }
      }
      assert texts[..|channel|] == texts;
      if Sane(converter.formats) {
        StreamIsSent(converter.formats, format, vs);
      }
      ShortenedTo(start, Stream(format, texts));
    }
  }

  /** What body holds, read line by line: each value's text on a line, followed by a blank line, in order;
      or, for server-sent events, as the data of an event of its own. */
  ghost predicate Sent(f: Formats, format: Format, vs: seq<Value>, body: string) {
    var lines := EventStream.Lines(body);
    match format
    case Ndjson =>
      && |lines| == 2 * |vs|
      && forall i :: 0 <= i < |vs| ==> lines[2 * i] == Render(f, vs[i]) && lines[2 * i + 1] == ""
    case Sse =>
      && |lines| == 3 * |vs|
      && (forall i :: 0 <= i < |vs| ==>
            lines[3 * i] == "data: " + Render(f, vs[i]) && lines[3 * i + 1] == "" && lines[3 * i + 2] == "")
      && TextsOf(f, vs, EventStream.Events(body))
  }

  /** The lines of a stream. */
  function WireLines(format: Format, texts: seq<string>): seq<string> {
    if texts == [] then []
    else if format.Sse? then ["data: " + texts[0]] + ([""] + ([""] + WireLines(format, texts[1..])))
    else [texts[0]] + ([""] + WireLines(format, texts[1..]))
  }

  lemma PlainLine(t: string)
    requires OneLine(t)
    ensures EventStream.NoLineEnd(t) && EventStream.NoLineEnd("data: " + t)
  {
    assert forall i :: 0 <= i < |t| ==> t[i] in t;
    var s := "data: " + t;
    forall i | 0 <= i < |s|
      ensures s[i] != '\n' && s[i] != '\r'
    {
      assert i >= 6 ==> s[i] == t[i - 6];
    }
  }

  lemma FrameLines(format: Format, text: string, rest: string)
    requires OneLine(text)
    ensures EventStream.Lines(Frame(format, text + "\n") + rest)
            == if format.Sse? then ["data: " + text] + ([""] + ([""] + EventStream.Lines(rest)))
               else [text] + ([""] + EventStream.Lines(rest))
  {
    hide EventStream.Lines;
    PlainLine(text);
    PlainLine("");
    EventStream.LinesCons("", rest);
    Empty("\n" + rest);
    if format.Sse? {
      var line := "data: " + text;
      EventStream.LinesCons("", "\n" + rest);
      Empty("\n" + ("\n" + rest));
      EventStream.LinesCons(line, "\n" + ("\n" + rest));
      assert Frame(format, text + "\n") + rest == line + ("\n" + ("\n" + ("\n" + rest)));
    } else {
      EventStream.LinesCons(text, "\n" + rest);
      assert Frame(format, text + "\n") + rest == text + ("\n" + ("\n" + rest));
    }
  }

  lemma {:induction false} StreamLines(format: Format, texts: seq<string>)
    requires forall t :: t in texts ==> OneLine(t)
    ensures EventStream.Lines(Stream(format, texts)) == WireLines(format, texts)
  {
    hide EventStream.Lines, Frame;
    if texts == [] {
      NoLines();
    } else {
      assert texts[0] in texts;
      StreamLines(format, texts[1..]);
      FrameLines(format, texts[0], Stream(format, texts[1..]));
    }
  }

  lemma NoLines()
    ensures EventStream.Lines("") == []
  {}

  lemma {:induction false} LinesAt(format: Format, texts: seq<string>, i: nat)
    requires i < |texts|
    ensures var lines := WireLines(format, texts);
            && (format.Ndjson? ==> |lines| == 2 * |texts|) && (format.Sse? ==> |lines| == 3 * |texts|)
            && (format.Ndjson? ==> lines[2 * i] == texts[i] && lines[2 * i + 1] == "")
            && (format.Sse? ==> lines[3 * i] == "data: " + texts[i] && lines[3 * i + 1] == "" && lines[3 * i + 2] == "")
  {
    WireLength(format, texts);
    if i > 0 {
      WireLength(format, texts[1..]);
      LinesAt(format, texts[1..], i - 1);
    }
  }

  lemma {:induction false} WireLength(format: Format, texts: seq<string>)
    ensures format.Ndjson? ==> |WireLines(format, texts)| == 2 * |texts|
    ensures format.Sse? ==> |WireLines(format, texts)| == 3 * |texts|
  {
    if texts != [] {
      WireLength(format, texts[1..]);
    }
  }

  lemma {:induction false} WireEvents(texts: seq<string>)
    ensures EventStream.Dispatched(WireLines(Sse, texts), []) == texts
  {
    if texts != [] {
      WireEvents(texts[1..]);
      EventStream.EventCons(texts[0], WireLines(Sse, texts[1..]));
      assert texts == [texts[0]] + texts[1..];
    }
  }

  lemma StreamIsSent(f: Formats, format: Format, vs: seq<Value>)
    requires Sane(f)
    ensures Sent(f, format, vs, Stream(format, Texts(f, vs)))
  {
    var texts := Texts(f, vs);
    hide Render, Stream, EventStream.Lines, EventStream.Dispatched, WireLines;
    forall t | t in texts
      ensures OneLine(t)
    {
      var i :| 0 <= i < |texts| && t == texts[i];
      RenderOneLine(f, vs[i]);
    }
    StreamLines(format, texts);
    WireLength(format, texts);
    WireEvents(texts);
    var lines := EventStream.Lines(Stream(format, texts));
    if format.Ndjson? {
      forall i | 0 <= i < |vs|
        ensures lines[2 * i] == Render(f, vs[i]) && lines[2 * i + 1] == ""
      {
        LinesAt(format, texts, i);
      }
    } else {
      forall i | 0 <= i < |vs|
        ensures lines[3 * i] == "data: " + Render(f, vs[i]) && lines[3 * i + 1] == "" && lines[3 * i + 2] == ""
      {
        LinesAt(format, texts, i);
      }
    }
  }

  lemma OneValue(f: Formats, v: Value, e: Bytes)
    requires Encodes(v, e)
    ensures Convert(f, e) == Converted(Render(f, v) + "\n", EOF)
  {
    assert e[..|e|] == e && EncodesItems([v][1..], e[|e|..]);
    assert EncodesItems([v], e);
    ConvertsWholeStream(f, [v], e);
    Empty(Render(f, v) + "\n");
  }

  lemma {:induction false} StreamGrows(format: Format, texts: seq<string>, text: string)
    ensures Stream(format, texts + [text]) == Stream(format, texts) + Frame(format, text + "\n")
  {
    if texts == [] {
      Empty(Frame(format, text + "\n"));
      assert texts + [text] == [text];
    } else {
      assert (texts + [text])[1..] == texts[1..] + [text];
      StreamGrows(format, texts[1..], text);
      Assoc(Frame(format, texts[0] + "\n"), Stream(format, texts[1..]), Frame(format, text + "\n"));
    }
  }

  lemma NothingStreamed(format: Format)
    ensures Stream(format, []) == ""
  {}

  lemma Streamed(format: Format, start: string, texts: seq<string>, i: nat)
    requires i < |texts|
    ensures var sent, text := start + Stream(format, texts[..i]), texts[i] + "\n";
            && sent + Frame(format, text) == start + Stream(format, texts[..i + 1])
            && sent + text + "\n" == sent + (text + "\n")
  {
    StreamGrows(format, texts[..i], texts[i]);
    assert texts[..i + 1] == texts[..i] + [texts[i]];
    Assoc(start, Stream(format, texts[..i]), Frame(format, texts[i] + "\n"));
  }

  // ---------- the client ----------

  const MAX_TOKEN := 8 * 1024 * 1024

  function LineLength(s: string): (n: nat)
    ensures n <= |s| && (n < |s| ==> s[n] == '\n') && forall i :: 0 <= i < n ==> s[i] != '\n'
  {
    if s == "" || s[0] == '\n' then 0 else 1 + LineLength(s[1..])
  }

  function DropCR(line: string): string {
    if line != "" && line[|line| - 1] == '\r' then line[..|line| - 1] else line
  }

  /** A line scanner over body: a line of MAX_TOKEN bytes or more, its newline included,
      does not fit the buffer and ends the scan. */
  class Scanner {
    var body: string
    var line: string

    constructor (body: string)
      ensures this.body == body
    {
      this.body, line := body, "";
    }

    method Scan() returns (ok: bool)
      modifies this
      ensures ok <==> old(body) != "" && Fits(old(body))
      ensures ok ==> line == DropCR(old(body)[..LineLength(old(body))])
      ensures ok ==> body == AfterLine(old(body))
    {
      ok := body != "" && Fits(body);
      if ok {
        line := DropCR(body[..LineLength(body)]);
        body := AfterLine(body);
      }
    }
  }

  function AfterLine(body: string): string {
    if LineLength(body) < |body| then body[LineLength(body) + 1..] else ""
  }

  predicate Fits(body: string) {
    LineLength(body) < MAX_TOKEN
  }

  /** The lines a scan of body yields. */
  function ScanLines(body: string): seq<string>
    decreases |body|
  {
    if body == "" || !Fits(body) then []
    else [DropCR(body[..LineLength(body)])] + ScanLines(AfterLine(body))
  }

  predicate Blank(line: string) {
    forall c :: c in line ==> c == ' ' || '\t' <= c <= '\r'
  }

  /** What the client prints for one line. */
  function Deliver(format: Format, line: string): seq<string> {
    if format.Sse? then (if PREFIX <= line then [line[|PREFIX|..]] else [])
    else if Blank(line) then [] else [line]
  }

  function Delivered(format: Format, lines: seq<string>): seq<string> {
    if lines == [] then [] else Deliver(format, lines[0]) + Delivered(format, lines[1..])
  }

  lemma DeliveredStep(format: Format, lines: seq<string>, printed: seq<string>)
    ensures lines != [] ==>
              printed + Delivered(format, lines)
                  == (printed + Deliver(format, lines[0])) + Delivered(format, lines[1..])
    ensures printed + [] == printed
  {}

  /** What the client prints for a whole response body. */
  function Received(format: Format, body: string): seq<string> {
    Delivered(format, ScanLines(body))
  }

  method DoCall(format: Format, body: string) returns (printed: seq<string>)
    ensures printed == Received(format, body)
  {
    hide Delivered, DropCR, LineLength;
    printed := [];
    var sc := new Scanner(body);
    ghost var pending := ScanLines(body);
    DeliveredStep(format, pending, printed);
    var ok := sc.Scan();
    while ok
      invariant pending == if ok then [sc.line] + ScanLines(sc.body) else []
      invariant Delivered(format, ScanLines(body)) == printed + Delivered(format, pending)
      decreases |pending|
    {
      var line := sc.line;
      DeliveredStep(format, pending, printed);
      if format.Sse? {
        if PREFIX <= line {
          printed := printed + [line[|PREFIX|..]];
        }
      } else {
        if !Blank(line) {
          printed := printed + [line];
        }
      }
      pending := ScanLines(sc.body);
      ok := sc.Scan();
    }
    NothingDelivered(format);
  }

  lemma NotBlank(line: string)
    ensures !Blank(line) <==>
              exists i :: 0 <= i < |line| && line[i] !in {' ', '\t', '\n', '\r', 11 as char, 12 as char}
  {
    if !Blank(line) {
      var c :| c in line && c != ' ' && !('\t' <= c <= '\r');
      var i :| 0 <= i < |line| && line[i] == c;
      assert c as int < 9 || c as int > 13;
    }
    forall i | 0 <= i < |line| && line[i] !in {' ', '\t', '\n', '\r', 11 as char, 12 as char}
      ensures !Blank(line)
    {
      assert line[i] in line;
    }
  }

  /** What each line comes to, whatever stands around it: the rest of a line that begins with "data: ",
      and no other; or any line that is not blank. */
  lemma {:induction false} LineCounts(format: Format, before: seq<string>, line: string, after: seq<string>)
    ensures Delivered(format, before + ([line] + after)) == Delivered(format, before) +
              (if format.Sse? then (if "data: " <= line then [line[6..]] else [])
               else if exists i :: 0 <= i < |line| && line[i] !in {' ', '\t', '\n', '\r', 11 as char, 12 as char}
               then [line] else [])
            + Delivered(format, after)
  {
    NotBlank(line);
    hide Blank;
    DeliveredConcat(format, before, [line] + after);
    Singleton(line, after);
    Assoc(Delivered(format, before), Deliver(format, line), Delivered(format, after));
  }

  lemma {:induction false} DeliveredConcat(format: Format, a: seq<string>, b: seq<string>)
    ensures Delivered(format, a + b) == Delivered(format, a) + Delivered(format, b)
  {
    hide Deliver;
    if a == [] {
      Empty(b);
      Empty(Delivered(format, b));
    } else {
      assert (a + b)[1..] == a[1..] + b;
      DeliveredConcat(format, a[1..], b);
      Assoc(Deliver(format, a[0]), Delivered(format, a[1..]), Delivered(format, b));
    }
  }

  /** A carriage return before the newline is not part of the line; any other is. */
  lemma CarriageReturn(line: string, rest: string)
    requires '\n' !in line && |line| + 1 < 8388608
    ensures ScanLines(line + "\r" + "\n" + rest) == [line] + ScanLines(rest)
    ensures (line == "" || line[|line| - 1] != '\r') ==> ScanLines(line + "\n" + rest) == [line] + ScanLines(rest)
  {
    EndsAt(line + "\r", rest);
    EndsAt(line, rest);
    var s, t := line + "\r" + "\n" + rest, line + "\n" + rest;
    assert s[..|line| + 1] == line + "\r" && s[|line| + 2..] == rest && (line + "\r")[..|line|] == line;
    assert t[..|line|] == line && t[|line| + 1..] == rest;
  }

  lemma {:induction false} EndsAt(line: string, rest: string)
    requires '\n' !in line
    ensures LineLength(line + "\n" + rest) == |line|
  {
    var s := line + "\n" + rest;
    if line != "" {
      assert line[0] in line && forall c :: c in line[1..] ==> c in line;
      EndsAt(line[1..], rest);
      assert s[1..] == line[1..] + "\n" + rest;
    }
  }

  // ---------- the round trip ----------

  /** A value's line, newline included, fits the client's buffer. */
  predicate Deliverable(format: Format, text: string) {
    |text| + 1 + (if format.Sse? then 6 else 0) <= 8388608
  }

  function DeliverablePrefix(format: Format, texts: seq<string>): seq<string> {
    if texts == [] || !Deliverable(format, texts[0]) then []
    else [texts[0]] + DeliverablePrefix(format, texts[1..])
  }

  lemma {:induction false} LineOf(line: string, rest: string)
    requires OneLine(line)
    ensures LineLength(line + "\n" + rest) == |line|
  {
    var s := line + "\n" + rest;
    if line != "" {
      assert line[0] in line && forall c :: c in line[1..] ==> c in line;
      LineOf(line[1..], rest);
      assert s[1..] == line[1..] + "\n" + rest;
    }
  }

  lemma ScansLine(line: string, rest: string)
    requires OneLine(line)
    ensures ScanLines(line + "\n" + rest) == if |line| < MAX_TOKEN then [line] + ScanLines(rest) else []
  {
    var s := line + "\n" + rest;
    LineOf(line, rest);
    assert s[..|line|] == line && s[|line| + 1..] == rest;
    assert line != "" ==> line[|line| - 1] in line;
  }

  lemma ScansBlank(rest: string)
    ensures ScanLines("\n" + rest) == [""] + ScanLines(rest)
  {
    ScansLine("", rest);
    Empty("\n");
  }

  lemma DeliversLine(format: Format, line: string, lines: seq<string>)
    ensures Delivered(format, [line] + lines) == Deliver(format, line) + Delivered(format, lines)
    ensures Delivered(format, [""] + lines) == Delivered(format, lines)
  {
    Singleton(line, lines);
    Singleton("", lines);
    Empty(Delivered(format, lines));
  }

  lemma DeliversText(format: Format, text: string)
    requires Visible(text)
    ensures Deliver(format, if format.Sse? then PREFIX + text else text) == [text]
  {
    assert text[0] in text;
    assert (PREFIX + text)[|PREFIX|..] == text;
  }

  lemma ScansFrame(format: Format, text: string, rest: string)
    requires OneLine(text) && Visible(text)
    ensures Delivered(format, ScanLines(Frame(format, text + "\n") + rest)) ==
            if Deliverable(format, text) then [text] + Delivered(format, ScanLines(rest)) else []
  {
    hide Deliver, Delivered, ScanLines;
    var line := if format.Sse? then PREFIX + text else text;
    var lines := ScanLines(rest);
    DeliversText(format, text);
    DeliversLine(format, line, lines);
    NothingDelivered(format);
    if format.Sse? {
      var tail := "\n" + ("\n" + rest);
      assert Frame(format, text + "\n") + rest == line + "\n" + tail;
      ScansLine(line, tail);
      ScansBlank("\n" + rest);
      ScansBlank(rest);
      DeliversLine(format, line, [""] + ([""] + lines));
      DeliversLine(format, line, [""] + lines);
    } else {
      var tail := "\n" + rest;
      assert Frame(format, text + "\n") + rest == line + "\n" + tail;
      ScansLine(line, tail);
      ScansBlank(rest);
      DeliversLine(format, line, [""] + lines);
    }
  }

  lemma NothingDelivered(format: Format)
    ensures Delivered(format, []) == []
  {}

  /** The client prints exactly the texts sent, up to the first that does not fit its buffer. */
  lemma {:induction false} StreamDelivered(format: Format, texts: seq<string>)
    requires forall t :: t in texts ==> LineText(t)
    ensures Received(format, Stream(format, texts)) == DeliverablePrefix(format, texts)
  {
    if texts != [] {
      assert texts[0] in texts;
      ScansFrame(format, texts[0], Stream(format, texts[1..]));
      StreamDelivered(format, texts[1..]);
    }
  }

  predicate AllDeliverable(format: Format, texts: seq<string>) {
    forall t :: t in texts ==> Deliverable(format, t)
  }

  lemma {:induction false} WholePrefix(format: Format, texts: seq<string>)
    ensures DeliverablePrefix(format, texts) == texts <==> AllDeliverable(format, texts)
  {
    if texts != [] {
      WholePrefix(format, texts[1..]);
      assert texts == [texts[0]] + texts[1..];
    }
  }

  /** What the client prints is what was sent. */
  predicate Arrives(format: Format, texts: seq<string>) {
    Received(format, Stream(format, texts)) == texts
  }

  /** The texts are those of these values. */
  predicate TextsOf(f: Formats, vs: seq<Value>, texts: seq<string>) {
    |texts| == |vs| && forall i :: 0 <= i < |vs| ==> texts[i] == Render(f, vs[i])
  }

  /** Round trip of the framing: every value arrives, as its own text and in order, exactly
      when each line fits in 8 MiB. */
  lemma FramingRoundTrip(f: Formats, format: Format, vs: seq<Value>, texts: seq<string>)
    requires Sane(f) && TextsOf(f, vs, texts)
    ensures Arrives(format, texts) <==> AllDeliverable(format, texts)
  {
    forall t | t in texts
      ensures LineText(t)
    {
      var i :| 0 <= i < |texts| && t == texts[i];
      RenderOneLine(f, vs[i]);
    }
    StreamDelivered(format, texts);
    WholePrefix(format, texts);
  }
}
