/**
 String literals and object-key order of the canonical form
 (M4/app/integrity/canonicalizer.py): escaping, its inverse, and the UTF-16
 sort key. A Dafny `char` is a Unicode scalar value, so a `string` here is
 exactly a Python string without lone surrogates.
 */
module CanonicalStrings {
  import opened Results

  const HEX := "0123456789abcdef"

  function Hex4(cp: nat): (r: string)
    requires cp < 0x10000
    ensures |r| == 4
  {
    [HEX[cp / 4096], HEX[cp / 256 % 16], HEX[cp / 16 % 16], HEX[cp % 16]]
  }

  function HexValue(c: char): Option<nat> {
    if '0' <= c <= '9' then Some(c as int - '0' as int)
    else if 'a' <= c <= 'f' then Some(c as int - 'a' as int + 10)
    else None
  }

  function EscapeChar(c: char): (r: string)
    ensures r != "" && r[0] != '\"'
  {
    if c == '\"' then "\\\""
    else if c == '\\' then "\\\\"
    else if c == '\U{8}' then "\\b"
    else if c == '\U{C}' then "\\f"
    else if c == '\n' then "\\n"
    else if c == '\r' then "\\r"
    else if c == '\t' then "\\t"
    else if c as int < 0x20 then "\\u" + Hex4(c as int)
    else [c]
  }

  function EscapeBody(s: string): string {
    if s == "" then "" else EscapeChar(s[0]) + EscapeBody(s[1..])
  }

  /** The quoted, escaped literal. */
  function Quote(s: string): string {
    "\"" + EscapeBody(s) + "\""
  }

  lemma {:induction false} EscapeBodyAppend(s: string, c: char)
    ensures EscapeBody(s + [c]) == EscapeBody(s) + EscapeChar(c)
  {
    if s == "" {
      assert s + [c] == [c];
      assert EscapeBody([c][1..]) == "";
    } else {
      assert (s + [c])[1..] == s[1..] + [c];
      EscapeBodyAppend(s[1..], c);
    }
  }

  lemma EscapedNext(s: string, i: nat)
    requires i < |s|
    ensures "\"" + EscapeBody(s[..i + 1]) == "\"" + EscapeBody(s[..i]) + EscapeChar(s[i])
  {
    EscapeBodyAppend(s[..i], s[i]);
    assert s[..i + 1] == s[..i] + [s[i]];
  }

  /** The escaping loop over the characters of an (already normalised) string. */
  method EncodeString(s: string) returns (out: string)
    ensures out == Quote(s)
  {
    out := "\"";
    for i := 0 to |s|
      invariant out == "\"" + EscapeBody(s[..i])
    {
      EscapedNext(s, i);
      out := out + EscapeChar(s[i]);
    }
    assert s[..|s|] == s;
    out := out + "\"";
  }

  /** Reads one `\uXXXX` escape that denotes a scalar value. */
  function ReadHex4(t: string): Option<(char, string)> {
    if |t| < 4 then None else
      var a :- HexValue(t[0]);
      var b :- HexValue(t[1]);
      var c :- HexValue(t[2]);
      var d :- HexValue(t[3]);
      var cp := a * 4096 + b * 256 + c * 16 + d;
      if a < 16 && b < 16 && c < 16 && d < 16 && (cp < 0xD800 || 0xE000 <= cp)
      then Some((cp as char, t[4..])) else None
  }

  /** Reads one possibly escaped character. */
  function ReadChar(t: string): (r: Option<(char, string)>)
    ensures r.Some? ==> |r.value.1| < |t|
  {
    if t == "" then None
    else if t[0] != '\\' then Some((t[0], t[1..]))
    else if |t| == 1 then None
    else if t[1] == '\"' then Some(('\"', t[2..]))
    else if t[1] == '\\' then Some(('\\', t[2..]))
    else if t[1] == 'b' then Some(('\U{8}', t[2..]))
    else if t[1] == 'f' then Some(('\U{C}', t[2..]))
    else if t[1] == 'n' then Some(('\n', t[2..]))
    else if t[1] == 'r' then Some(('\r', t[2..]))
    else if t[1] == 't' then Some(('\t', t[2..]))
    else if t[1] == 'u' then ReadHex4(t[2..])
    else None
  }

  /** Reads up to and over the closing quote. */
  function ReadBody(t: string): (r: Option<(string, string)>)
    ensures r.Some? ==> |r.value.1| < |t|
  {
    if t == "" then None
    else if t[0] == '\"' then Some(("", t[1..]))
    else
      var (c, rest) :- ReadChar(t);
      var (s, after) :- ReadBody(rest);
      Some(([c] + s, after))
  }

  lemma Hex4Digits(cp: nat)
    requires cp < 0x20
    ensures HexValue(Hex4(cp)[0]) == Some(0) && HexValue(Hex4(cp)[1]) == Some(0)
    ensures HexValue(Hex4(cp)[2]) == Some(cp / 16) && HexValue(Hex4(cp)[3]) == Some(cp % 16)
  {
    assert cp / 4096 == 0 && cp / 256 % 16 == 0 && cp / 16 % 16 == cp / 16;
  }

  lemma ReadEscapedChar(c: char, rest: string)
    ensures ReadChar(EscapeChar(c) + rest) == Some((c, rest))
  {
    var t := EscapeChar(c) + rest;
    if |EscapeChar(c)| == 1 {
      assert t[1..] == rest;
    } else if |EscapeChar(c)| == 2 {
      assert t[2..] == rest;
    } else {
      ReadHexChar(c, rest);
    }
  }

  lemma ReadHexChar(c: char, rest: string)
    requires |EscapeChar(c)| > 2
    ensures ReadChar(EscapeChar(c) + rest) == Some((c, rest))
  {
    var t, cp := EscapeChar(c) + rest, c as int;
    Hex4Digits(cp);
    assert t[2..] == Hex4(cp) + rest;
    assert (Hex4(cp) + rest)[4..] == rest;
  }

  /** Unescaping inverts escaping, whatever follows the literal. */
  lemma {:induction false} ReadQuoted(s: string, rest: string)
    ensures ReadBody(EscapeBody(s) + "\"" + rest) == Some((s, rest))
  {
    if s == "" {
      var t := EscapeBody(s) + "\"" + rest;
      assert t == "\"" + rest && t[1..] == rest;
    } else {
      EscapedHead(s, rest);
      ReadEscapedChar(s[0], EscapeBody(s[1..]) + "\"" + rest);
      ReadQuoted(s[1..], rest);
      assert s == [s[0]] + s[1..];
    }
  }

  lemma EscapedHead(s: string, rest: string)
    requires s != ""
    ensures EscapeBody(s) + "\"" + rest == EscapeChar(s[0]) + (EscapeBody(s[1..]) + "\"" + rest)
  {
    Regroup(EscapeChar(s[0]), EscapeBody(s[1..]), "\"", rest);
  }

  lemma Regroup(a: string, b: string, c: string, d: string)
    ensures (a + b) + c + d == a + (b + c + d)
  {
  }

  // ---- escaping is the shortest text that reads as the character ----

  /** A text no reader of JSON would refuse for holding a raw control character. */
  predicate NoControls(t: string) {
    forall i :: 0 <= i < |t| ==> t[i] as int >= 0x20
  }

  lemma HexDigitOf(c: char, v: nat)
    requires HexValue(c) == Some(v) && v < 16
    ensures c == HEX[v]
  {
  }

  lemma Nibbles(a: nat, b: nat, c: nat, d: nat, n: nat)
    requires a < 16 && b < 16 && c < 16 && d < 16 && n == a * 4096 + b * 256 + c * 16 + d
    ensures n / 4096 == a && n / 256 % 16 == b && n / 16 % 16 == c && n % 16 == d
  {
    assert n / 256 == a * 16 + b;
    assert n / 16 == (a * 16 + b) * 16 + c;
  }

  lemma FourDigits(t: string, a: nat, b: nat, c: nat, d: nat)
    requires |t| == 4 && a < 16 && b < 16 && c < 16 && d < 16
    requires HexValue(t[0]) == Some(a) && HexValue(t[1]) == Some(b)
    requires HexValue(t[2]) == Some(c) && HexValue(t[3]) == Some(d)
    ensures t == Hex4(a * 4096 + b * 256 + c * 16 + d)
  {
    HexDigitOf(t[0], a);
    HexDigitOf(t[1], b);
    HexDigitOf(t[2], c);
    HexDigitOf(t[3], d);
    Nibbles(a, b, c, d, a * 4096 + b * 256 + c * 16 + d);
  }

  /** Four digits that read as a character are its own four digits. */
  lemma Hex4Of(t: string, c: char)
    requires |t| >= 4 && ReadHex4(t) == Some((c, t[4..]))
    ensures c as int < 0x10000 && t[..4] == Hex4(c as int)
  {
    FourDigits(t[..4], HexValue(t[0]).value, HexValue(t[1]).value, HexValue(t[2]).value, HexValue(t[3]).value);
  }

  lemma HexIsShortest(t: string, c: char, rest: string)
    requires |t| >= 2 && t[..2] == "\\u" && ReadHex4(t[2..]) == Some((c, rest))
    ensures |EscapeChar(c)| + |rest| <= |t|
    ensures |EscapeChar(c)| + |rest| == |t| ==> t == EscapeChar(c) + rest
  {
    var u := t[2..];
    Hex4Of(u, c);
    HexSpelling(c);
    assert |EscapeChar(c)| == 6 ==> t == EscapeChar(c) + rest by {
      assert t == t[..2] + (u[..4] + u[4..]);
    }
  }

  /** A character is escaped in at most six characters, and in six only by its digits. */
  lemma HexSpelling(c: char)
    ensures |EscapeChar(c)| <= 6 && (|EscapeChar(c)| == 6 ==> EscapeChar(c) == "\\u" + Hex4(c as int))
  {
  }

  lemma ShortEscapeIsShortest(t: string, c: char, rest: string)
    requires |t| >= 2 && t[0] == '\\' && t[1] != 'u' && ReadChar(t) == Some((c, rest))
    ensures |EscapeChar(c)| <= 2 && |t| == |rest| + 2
    ensures |EscapeChar(c)| == 2 ==> t == EscapeChar(c) + rest
  {
    assert t == [t[0], t[1]] + rest;
  }

  /** What a text that starts with a character, in whatever spelling, uses for it. */
  lemma CharIsShortest(t: string, c: char, rest: string)
    requires t != "" && t[0] != '\"' && t[0] as int >= 0x20 && ReadChar(t) == Some((c, rest))
    ensures |EscapeChar(c)| + |rest| <= |t|
    ensures |EscapeChar(c)| + |rest| == |t| ==> t == EscapeChar(c) + rest
  {
    if t[0] != '\\' {
      assert t == [t[0]] + t[1..];
    } else if t[1] == 'u' {
      HexIsShortest(t, c, rest);
    } else {
      ShortEscapeIsShortest(t, c, rest);
    }
  }

  /** No control character is emitted raw. */
  lemma {:induction false} EscapedHasNoControls(s: string)
    ensures NoControls(EscapeBody(s))
  {
    if s != "" {
      EscapedHasNoControls(s[1..]);
      CharHasNoControls(s[0]);
    }
  }

  lemma DigitIsPrintable(i: nat)
    requires i < 16
    ensures HEX[i] as int >= 0x20
  {
  }

  lemma FourArePrintable(a: nat, b: nat, c: nat, d: nat)
    requires a < 16 && b < 16 && c < 16 && d < 16
    ensures NoControls("\\u" + [HEX[a], HEX[b], HEX[c], HEX[d]])
  {
    DigitIsPrintable(a);
    DigitIsPrintable(b);
    DigitIsPrintable(c);
    DigitIsPrintable(d);
  }

  lemma CharHasNoControls(c: char)
    ensures NoControls(EscapeChar(c))
  {
    if |EscapeChar(c)| == 6 {
      HexSpelling(c);
      var cp := c as int;
      assert cp < 0x10000;
      FourArePrintable(cp / 4096, cp / 256 % 16, cp / 16 % 16, cp % 16);
    }
  }

  /**
   Of all texts that read as the string and hold no raw control character, the
   literal the encoder emits is the shortest, and the only one of its length.
   */
  lemma {:induction false} QuoteIsShortest(s: string, t: string)
    requires NoControls(t) && ReadBody(t) == Some((s, ""))
    ensures |EscapeBody(s) + "\""| <= |t|
    ensures |EscapeBody(s) + "\""| == |t| ==> t == EscapeBody(s) + "\""
    decreases |t|
  {
    if t[0] != '\"' {
      var (c, rest) := ReadChar(t).value;
      ReadLeavesSuffix(t, c, rest);
      CharIsShortest(t, c, rest);
      assert s == [c] + s[1..];
      QuoteIsShortest(s[1..], rest);
      EscapedHead(s, "");
    } else {
      assert t == "\"" + t[1..];
    }
  }

  lemma ReadLeavesSuffix(t: string, c: char, rest: string)
    requires ReadChar(t) == Some((c, rest))
    ensures |rest| < |t| && rest == t[|t| - |rest|..]
  {
  }

  // ---- UTF-16 sort key ----

  /** The UTF-16 code units of one scalar value. */
  function Units(c: char): seq<int> {
    var cp := c as int;
    if cp <= 0xFFFF then [cp]
    else [0xD800 + (cp - 0x10000) / 1024, 0xDC00 + (cp - 0x10000) % 1024]
  }

  function Utf16(s: string): seq<int> {
    if s == "" then [] else Units(s[0]) + Utf16(s[1..])
  }

  lemma {:induction false} Utf16Append(s: string, c: char)
    ensures Utf16(s + [c]) == Utf16(s) + Units(c)
  {
    if s == "" {
      assert s + [c] == [c];
      assert Utf16([c][1..]) == [];
    } else {
      assert (s + [c])[1..] == s[1..] + [c];
      Utf16Append(s[1..], c);
    }
  }

  /** The loop that collects the code units of an (already normalised) string. */
  method Utf16SortKey(s: string) returns (units: seq<int>)
    ensures units == Utf16(s)
  {
    units := [];
    for i := 0 to |s|
      invariant units == Utf16(s[..i])
    {
      Utf16Append(s[..i], s[i]);
      assert s[..i + 1] == s[..i] + [s[i]];
      var cp := s[i] as int;
      if cp <= 0xFFFF {
        units := units + [cp];
      } else {
        cp := cp - 0x10000;
        units := units + [0xD800 + cp / 1024, 0xDC00 + cp % 1024];
      }
    }
    assert s[..|s|] == s;
  }

  // ---- UTF-16 (section 2 of RFC 2781) ----

  predicate High(u: int) {
    0xD800 <= u < 0xDC00
  }

  predicate Low(u: int) {
    0xDC00 <= u < 0xE000
  }

  /** The string whose UTF-16 form the code units are, if they are one. */
  function FromUtf16(u: seq<int>): Option<string> {
    if u == [] then Some("")
    else if 0 <= u[0] < 0xD800 || 0xE000 <= u[0] < 0x10000 then
      var s :- FromUtf16(u[1..]);
      Some([u[0] as char] + s)
    else if |u| >= 2 && High(u[0]) && Low(u[1]) then
      var s :- FromUtf16(u[2..]);
      Some([(0x10000 + (u[0] - 0xD800) * 0x400 + (u[1] - 0xDC00)) as char] + s)
    else None
  }

  lemma UnitsDecode(c: char, u: seq<int>)
    requires FromUtf16(u).Some?
    ensures FromUtf16(Units(c) + u) == Some([c] + FromUtf16(u).value)
  {
    assert (Units(c) + u)[|Units(c)|..] == u;
    if c as int > 0xFFFF {
      SurrogatesDecode(c as int, Units(c)[0], Units(c)[1]);
    }
  }

  lemma SurrogatesDecode(cp: int, h: int, l: int)
    requires 0x10000 <= cp < 0x110000 && h == 0xD800 + (cp - 0x10000) / 1024 && l == 0xDC00 + (cp - 0x10000) % 1024
    ensures High(h) && Low(l) && 0x10000 + (h - 0xD800) * 0x400 + (l - 0xDC00) == cp
  {
  }

  /** The sort key is the string's UTF-16 form: decoding it gives the string back. */
  lemma {:induction false} Utf16Decodes(s: string)
    ensures FromUtf16(Utf16(s)) == Some(s)
  {
    if s != "" {
      Utf16Decodes(s[1..]);
      UnitsDecode(s[0], Utf16(s[1..]));
      assert s == [s[0]] + s[1..];
    }
  }

  lemma UnitsPrefixFree(a: char, b: char, u: seq<int>, v: seq<int>)
    requires Units(a) + u == Units(b) + v
    ensures a == b && u == v
  {
    var l, r := Units(a) + u, Units(b) + v;
    assert l[0] == Units(a)[0] && r[0] == Units(b)[0];
    if a as int > 0xFFFF && b as int > 0xFFFF {
      assert l[1] == Units(a)[1] && r[1] == Units(b)[1];
      assert a as int == b as int;
    }
    assert |Units(a)| == |Units(b)|;
    assert u == l[|Units(a)|..] && v == r[|Units(b)|..];
  }

  /** Surrogate pairs never collide: the sort key determines the string. */
  lemma {:induction false} Utf16Injective(a: string, b: string)
    requires Utf16(a) == Utf16(b)
    ensures a == b
  {
    if a != "" && b != "" {
      UnitsPrefixFree(a[0], b[0], Utf16(a[1..]), Utf16(b[1..]));
      Utf16Injective(a[1..], b[1..]);
      assert a == [a[0]] + a[1..] && b == [b[0]] + b[1..];
    }
  }
}
