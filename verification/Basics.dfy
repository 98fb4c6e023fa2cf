/** An optional value, and what a parser recognized at the front of a text. */
module Basics {

  datatype Option<+T> = None | Some(value: T)

  type Int64 = n: int | -0x8000_0000_0000_0000 <= n < 0x8000_0000_0000_0000

  /** The recognized value, and the text that follows it. */
  datatype Parsed<+T> = Parsed(value: T, rest: string)

  function Prepend(c: char, r: Option<Parsed<string>>): Option<Parsed<string>> {
    if r.None? then None else Some(Parsed([c] + r.value.value, r.value.rest))
  }
}
