/** ASCII case folding, as strcasecmp and its like do it without a locale. */
module Ascii {

  function Lower(c: char): char {
    if 'A' <= c <= 'Z' then (c as int + 32) as char else c
  }

  /** The text without regard to case. */
  function Folded(s: string): (k: string)
    ensures |k| == |s| && forall i | 0 <= i < |s| :: k[i] == Lower(s[i])
  {
    if s == "" then "" else [Lower(s[0])] + Folded(s[1..])
  }
}
