/** JSON texts (RFC 8259 sections 2 to 7) and a parser for them. */
module Json {
  import opened Basics

  datatype Json =
    | JNull
    | JBool(b: bool)
    | JNumber(n: int)
    | JString(s: string)
    | JArray(items: seq<Json>)
    | JObject(members: seq<Member>)

  datatype Member = Member(name: string, value: Json)

  predicate IsSpace(c: char) {
    c == ' ' || c == '\t' || c == '\n' || c == '\r'
  }

  function SkipSpace(s: string): (r: string)
    ensures |r| <= |s|
    ensures r != "" ==> !IsSpace(r[0])
  {
    if s != "" && IsSpace(s[0]) then SkipSpace(s[1..]) else s
  }

  predicate IsDigit(c: char) {
    '0' <= c <= '9'
  }

  function DigitRun(s: string): (n: nat)
    ensures n <= |s| && forall i :: 0 <= i < n ==> IsDigit(s[i])
  {
    if s == "" || !IsDigit(s[0]) then 0 else 1 + DigitRun(s[1..])
  }

  function DigitValue(c: char): nat
    requires IsDigit(c)
  {
    c as int - '0' as int
  }

  function NaturalValue(s: string): nat
    requires forall c :: c in s ==> IsDigit(c)
  {
    if s == "" then 0
    else
      assert IsDigit(s[|s| - 1]);
      NaturalValue(s[..|s| - 1]) * 10 + DigitValue(s[|s| - 1])
  }

  // Integers only: a fraction or exponent is left to follow.
  function ParseNatural(s: string): (r: Option<Parsed<nat>>)
    ensures r.Some? ==> |r.value.rest| < |s|
  {
    var n := DigitRun(s);
    if n == 0 then None
    else if s[0] == '0' then Some(Parsed(0, s[1..]))
    else Some(Parsed(NaturalValue(s[..n]), s[n..]))
  }

  function ParseNumber(s: string): (r: Option<Parsed<Json>>)
    ensures r.Some? ==> |r.value.rest| < |s|
  {
    if s != "" && s[0] == '-' then
      var r := ParseNatural(s[1..]);
      if r.None? then None else Some(Parsed(JNumber(0 - r.value.value), r.value.rest))
    else
      var r := ParseNatural(s);
      if r.None? then None else Some(Parsed(JNumber(r.value.value), r.value.rest))
  }

  /** The character a two-character escape stands for. */
  function Unescape(c: char): Option<char> {
    match c
    case '\"' => Some('\"')
    case '\\' => Some('\\')
    case '/' => Some('/')
    case 'b' => Some(8 as char)
    case 'f' => Some(12 as char)
    case 'n' => Some('\n')
    case 'r' => Some('\r')
    case 't' => Some('\t')
    case _ => None
  }

  /** A string after its opening quote. */
  function ParseString(s: string): (r: Option<Parsed<string>>)
    ensures r.Some? ==> |r.value.rest| < |s|
    decreases |s|
  {
    if s == "" then None
    else if s[0] == '\"' then Some(Parsed("", s[1..]))
    else if s[0] == '\\' then
      if |s| == 1 || Unescape(s[1]).None? then None
      else Prepend(Unescape(s[1]).value, ParseString(s[2..]))
    else if s[0] as int < 0x20 then None
    else Prepend(s[0], ParseString(s[1..]))
  }

  function ParseLiteral(s: string, word: string, value: Json): (r: Option<Parsed<Json>>)
    requires word != ""
    ensures r.Some? ==> |r.value.rest| < |s|
  {
    if word <= s then Some(Parsed(value, s[|word|..])) else None
  }

  function ParseValue(s: string): (r: Option<Parsed<Json>>)
    ensures r.Some? ==> |r.value.rest| < |s|
    decreases |s|, 0
  {
    var t := SkipSpace(s);
    if t == "" then None
    else match t[0]
      case 'n' => ParseLiteral(t, "null", JNull)
      case 't' => ParseLiteral(t, "true", JBool(true))
      case 'f' => ParseLiteral(t, "false", JBool(false))
      case '\"' =>
        var r := ParseString(t[1..]);
        if r.None? then None else Some(Parsed(JString(r.value.value), r.value.rest))
      case '[' => ParseArray(t[1..])
      case '{' => ParseObject(t[1..])
      case _ => ParseNumber(t)
  }

  function ParseArray(s: string): (r: Option<Parsed<Json>>)
    ensures r.Some? ==> |r.value.rest| < |s|
    decreases |s|, 2
  {
    var t := SkipSpace(s);
    if t != "" && t[0] == ']' then Some(Parsed(JArray([]), t[1..]))
    else
      var r := ParseItems(s);
      if r.None? then None else Some(Parsed(JArray(r.value.value), r.value.rest))
  }

  /** One or more values and the closing bracket. */
  function ParseItems(s: string): (r: Option<Parsed<seq<Json>>>)
    ensures r.Some? ==> |r.value.rest| < |s|
    decreases |s|, 1
  {
    var v := ParseValue(s);
    if v.None? then None
    else
      var t := SkipSpace(v.value.rest);
      if t == "" then None
      else if t[0] == ']' then Some(Parsed([v.value.value], t[1..]))
      else if t[0] != ',' then None
      else
        var more := ParseItems(t[1..]);
        if more.None? then None else Some(Parsed([v.value.value] + more.value.value, more.value.rest))
  }

  function ParseObject(s: string): (r: Option<Parsed<Json>>)
    ensures r.Some? ==> |r.value.rest| < |s|
    decreases |s|, 2
  {
    var t := SkipSpace(s);
    if t != "" && t[0] == '}' then Some(Parsed(JObject([]), t[1..]))
    else
      var r := ParseMembers(s);
      if r.None? then None else Some(Parsed(JObject(r.value.value), r.value.rest))
  }

  function ParseName(s: string): (r: Option<Parsed<string>>)
    ensures r.Some? ==> |r.value.rest| < |s|
  {
    var t := SkipSpace(s);
    if t == "" || t[0] != '\"' then None
    else
      var k := ParseString(t[1..]);
      if k.None? then None
      else
        var u := SkipSpace(k.value.rest);
        if u == "" || u[0] != ':' then None else Some(Parsed(k.value.value, u[1..]))
  }

  /** One or more members and the closing brace. */
  function ParseMembers(s: string): (r: Option<Parsed<seq<Member>>>)
    ensures r.Some? ==> |r.value.rest| < |s|
    decreases |s|, 1
  {
    var k := ParseName(s);
    if k.None? then None
    else
      var v := ParseValue(k.value.rest);
      if v.None? then None
      else
        var m, t := Member(k.value.value, v.value.value), SkipSpace(v.value.rest);
        if t == "" then None
        else if t[0] == '}' then Some(Parsed([m], t[1..]))
        else if t[0] != ',' then None
        else
          var more := ParseMembers(t[1..]);
          if more.None? then None else Some(Parsed([m] + more.value.value, more.value.rest))
  }

  /** A whole JSON text: one value with nothing but space around it. */
  function Parse(s: string): Option<Json> {
    var r := ParseValue(s);
    if r.Some? && SkipSpace(r.value.rest) == "" then Some(r.value.value) else None
  }
}
