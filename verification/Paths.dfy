/**
 * Relative paths written with `/`: their components, what makes a component safe, and lengths in
 * UTF-8, which is how the code measures every text it bounds.
 */
module Paths {

  /** The pieces between the slashes. */
  function Split(s: string): (parts: seq<string>)
    ensures parts != [] && forall part | part in parts :: '/' !in part
  {
    if s == "" then [""]
    else
      var rest := Split(s[1..]);
      if s[0] == '/' then [""] + rest else [[s[0]] + rest[0]] + rest[1..]
  }

  predicate SafePart(part: string) {
    part != "" && part != "." && part != ".."
  }

  /** Length of a character and of a text in UTF-8. */
  function Width(c: char): nat {
    if c < '\U{80}' then 1 else if c < '\U{800}' then 2 else if c < '\U{10000}' then 3 else 4
  }

  function Size(s: string): nat {
    if s == "" then 0 else Width(s[0]) + Size(s[1..])
  }

  predicate IsControl(c: char) {
    c < ' ' || '\U{7F}' <= c <= '\U{9F}'
  }
}
