/** Lower-casing of ASCII letters. */
module AsciiText {
  predicate UpperCase(c: char) {
    'A' <= c <= 'Z'
  }

  function Lower(s: string): (r: string)
    ensures |r| == |s|
    ensures forall i :: 0 <= i < |s| ==>
              if UpperCase(s[i]) then r[i] as int == s[i] as int + 32 else r[i] == s[i]
  {
    seq(|s|, i requires 0 <= i < |s| => if UpperCase(s[i]) then (s[i] as int + 32) as char else s[i])
  }
}
