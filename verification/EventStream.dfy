/**
 Reading a stream the way its standard says: server-sent events (HTML standard, section "Interpreting an
 event stream"), and lines.
 */
module EventStream {
  import opened Sequences

  /** Where the first line of s ends. */
  function LineEnd(s: string): (n: nat)
    ensures n <= |s|
  {
    if s == "" || s[0] == '\n' || s[0] == '\r' then 0 else 1 + LineEnd(s[1..])
  }

  /** How many characters end the line at n. */
  function EndWidth(s: string, n: nat): (k: nat)
    requires n < |s|
    ensures 0 < k && n + k <= |s|
  {
    if s[n] == '\r' && n + 1 < |s| && s[n + 1] == '\n' then 2 else 1
  }

  /** The lines of s that are ended. */
  function Lines(s: string): seq<string>
    decreases |s|
  {
    var n := LineEnd(s);
    if n == |s| then [] else [s[..n]] + Lines(s[n + EndWidth(s, n)..])
  }

  /** The value of a field named data, without the space that may begin it. */
  function DataOf(line: string): string
    requires "data:" <= line
  {
    var v := line[5..];
    if v != "" && v[0] == ' ' then v[1..] else v
  }

  function JoinLines(data: seq<string>): string {
    if data == [] then "" else if |data| == 1 then data[0] else data[0] + "\n" + JoinLines(data[1..])
  }

  /** The data of the events that lines dispatch, data having been gathered before them.  A blank line
      dispatches an event, if there is data for it; fields of other names, and comments, have none. */
  function Dispatched(lines: seq<string>, data: seq<string>): seq<string>
    decreases |lines|
  {
    if lines == [] then []
    else if lines[0] == "" then (if data == [] then [] else [JoinLines(data)]) + Dispatched(lines[1..], [])
    else if "data:" <= lines[0] then Dispatched(lines[1..], data + [DataOf(lines[0])])
    else Dispatched(lines[1..], data)
  }

  function Events(body: string): seq<string> {
    Dispatched(Lines(body), [])
  }

  predicate NoLineEnd(s: string) {
    forall i :: 0 <= i < |s| ==> s[i] != '\n' && s[i] != '\r'
  }

  lemma {:induction false} EndOfLine(line: string, rest: string)
    requires NoLineEnd(line)
    ensures LineEnd(line + ("\n" + rest)) == |line|
  {
    var s := line + ("\n" + rest);
    if line != "" {
      EndOfLine(line[1..], rest);
      assert s[1..] == line[1..] + ("\n" + rest);
    }
  }

  lemma LinesCons(line: string, rest: string)
    requires NoLineEnd(line)
    ensures Lines(line + ("\n" + rest)) == [line] + Lines(rest)
  {
    var s := line + ("\n" + rest);
    EndOfLine(line, rest);
    assert s[..|line|] == line && s[|line| + 1..] == rest && s[|line|] == '\n';
  }

  lemma EventCons(text: string, rest: seq<string>)
    ensures Dispatched(["data: " + text] + ([""] + ([""] + rest)), []) == [text] + Dispatched(rest, [])
  {
    var line := "data: " + text;
    assert "data:" <= line && line != "";
    Singleton(line, [""] + ([""] + rest));
    Singleton("", [""] + rest);
    Singleton("", rest);
    assert line[5..] == " " + text && line[5..][1..] == text;
    assert [] + [text] == [text];
    assert Dispatched([""] + rest, []) == Dispatched(rest, []) by {
      Empty(Dispatched(rest, []));
    }
    assert Dispatched([""] + ([""] + rest), [text]) == [text] + Dispatched([""] + rest, []);
  }
}
