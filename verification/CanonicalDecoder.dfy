/**
 A decoder for canonical text, written independently of the printer, and the
 proof that it recovers every printed tree.
 */
module CanonicalDecoder {
  import opened Results
  import opened CanonicalStrings
  import opened CanonicalNumbers
  import opened CanonicalText
  import Orders

  /** The longest prefix made of numeral characters. */
  function NumeralLength(s: string): (n: nat)
    ensures n <= |s|
    ensures forall i :: 0 <= i < n ==> NumeralChar(s[i])
    ensures n < |s| ==> !NumeralChar(s[n])
  {
    if s == "" || !NumeralChar(s[0]) then 0 else 1 + NumeralLength(s[1..])
  }

  /** Reads one value and returns it with the unread text. */
  function ReadValue(s: string): (r: Option<(Json, string)>)
    ensures r.Some? ==> |r.value.1| < |s|
    decreases |s|, 0
  {
    if s == "" then None
    else if "null" <= s then Some((Null, s[4..]))
    else if "true" <= s then Some((Bool(true), s[4..]))
    else if "false" <= s then Some((Bool(false), s[5..]))
    else if s[0] == '\"' then
      var (body, rest) :- ReadBody(s[1..]);
      Some((Str(body), rest))
    else if "[]" <= s then Some((Arr([]), s[2..]))
    else if s[0] == '[' then
      var (xs, rest) :- ReadItems(s[1..]);
      Some((Arr(xs), rest))
    else if "{}" <= s then Some((Obj([]), s[2..]))
    else if s[0] == '{' then
      var (fs, rest) :- ReadFields(s[1..]);
      Some((Obj(fs), rest))
    else
      var n := NumeralLength(s);
      if n == 0 then None else Some((Num(s[..n]), s[n..]))
  }

  /** Reads a non-empty item list and its closing bracket. */
  function ReadItems(s: string): (r: Option<(seq<Json>, string)>)
    ensures r.Some? ==> |r.value.1| < |s|
    decreases |s|, 1
  {
    var (x, rest) :- ReadValue(s);
    if rest == "" then None
    else if rest[0] == ']' then Some(([x], rest[1..]))
    else if rest[0] != ',' then None
    else
      var (xs, after) :- ReadItems(rest[1..]);
      Some(([x] + xs, after))
  }

  /** Reads a non-empty field list and its closing brace. */
  function ReadFields(s: string): (r: Option<(seq<Field>, string)>)
    ensures r.Some? ==> |r.value.1| < |s|
    decreases |s|, 1
  {
    if s == "" || s[0] != '\"' then None else
      var (key, tail) :- ReadBody(s[1..]);
      if tail == "" || tail[0] != ':' then None else
        var (x, rest) :- ReadValue(tail[1..]);
        if rest == "" then None
        else if rest[0] == '}' then Some(([Field(key, x)], rest[1..]))
        else if rest[0] != ',' then None
        else
          var (fs, after) :- ReadFields(rest[1..]);
          Some(([Field(key, x)] + fs, after))
  }

  /** Decodes a whole text. */
  function Decode(s: string): Option<Json> {
    var (v, rest) :- ReadValue(s);
    if rest == "" then Some(v) else None
  }

  // ---- reading back what was printed ----

  /** What may follow a printed value: nothing that would extend a numeral. */
  predicate Delimited(rest: string) {
    rest == "" || !NumeralChar(rest[0])
  }

  lemma NumeralStops(t: string, rest: string)
    requires forall i :: 0 <= i < |t| ==> NumeralChar(t[i])
    requires Delimited(rest)
    ensures NumeralLength(t + rest) == |t|
  {
    assert forall i :: 0 <= i < |t| ==> (t + rest)[i] == t[i];
    assert rest != "" ==> (t + rest)[|t|] == rest[0];
  }

  lemma PrintHead(v: Json)
    requires Numerals(v)
    ensures Print(v) != "" && Print(v)[0] != ']' && Print(v)[0] != '}'
  {
  }

  lemma ReadPrintedLeaf(v: Json, rest: string)
    requires Numerals(v) && Delimited(rest) && !v.Arr? && !v.Obj?
    ensures ReadValue(Print(v) + rest) == Some((v, rest))
  {
    var t := Print(v) + rest;
    match v
    case Null => assert t[4..] == rest;
    case Bool(b) => ReadPrintedBool(b, rest);
    case Num(s) => ReadPrintedNumeral(s, rest);
    case Str(s) =>
      assert t[0] == '\"' && t[1..] == EscapeBody(s) + "\"" + rest;
      ReadQuoted(s, rest);
  }

  lemma ReadPrintedBool(b: bool, rest: string)
    ensures ReadValue((if b then "true" else "false") + rest) == Some((Bool(b), rest))
  {
    var t := (if b then "true" else "false") + rest;
    assert t[0] == if b then 't' else 'f';
    assert t[if b then 4 else 5..] == rest;
  }

  lemma ReadPrintedNumeral(s: string, rest: string)
    requires Numerals(Num(s)) && Delimited(rest)
    ensures ReadValue(s + rest) == Some((Num(s), rest))
  {
    var t := s + rest;
    NumeralStops(s, rest);
    assert t[0] == s[0];
    assert t[..|s|] == s && t[|s|..] == rest;
  }

  // One unfolding of each reader, on text whose inner part is already understood.

  lemma ReadArr(inner: string, xs: seq<Json>, rest: string)
    requires inner != "" && inner[0] != ']' && ReadItems(inner) == Some((xs, rest))
    ensures ReadValue("[" + inner) == Some((Arr(xs), rest))
  {
    var t := "[" + inner;
    assert t[0] == '[' && t[1] == inner[0] && t[1..] == inner;
  }

  lemma ReadObj(inner: string, fs: seq<Field>, rest: string)
    requires inner != "" && inner[0] != '}' && ReadFields(inner) == Some((fs, rest))
    ensures ReadValue("{" + inner) == Some((Obj(fs), rest))
  {
    var t := "{" + inner;
    assert t[0] == '{' && t[1] == inner[0] && t[1..] == inner;
  }

  lemma ReadEmptyArr(rest: string)
    ensures ReadValue("[]" + rest) == Some((Arr([]), rest))
  {
    var t := "[]" + rest;
    assert t[0] == '[' && t[1] == ']' && t[2..] == rest;
  }

  lemma ReadEmptyObj(rest: string)
    ensures ReadValue("{}" + rest) == Some((Obj([]), rest))
  {
    var t := "{}" + rest;
    assert t[0] == '{' && t[1] == '}' && t[2..] == rest;
  }

  lemma ReadLastField(s: string, key: string, tail: string, x: Json, rest: string)
    requires s != "" && s[0] == '\"' && ReadBody(s[1..]) == Some((key, tail))
    requires tail != "" && tail[0] == ':' && ReadValue(tail[1..]) == Some((x, "}" + rest))
    ensures ReadFields(s) == Some(([Field(key, x)], rest))
  {
    assert ("}" + rest)[1..] == rest;
  }

  lemma ReadNextField(s: string, key: string, tail: string, x: Json, inner: string, fs: seq<Field>, rest: string)
    requires s != "" && s[0] == '\"' && ReadBody(s[1..]) == Some((key, tail))
    requires tail != "" && tail[0] == ':' && ReadValue(tail[1..]) == Some((x, "," + inner))
    requires ReadFields(inner) == Some((fs, rest))
    ensures ReadFields(s) == Some(([Field(key, x)] + fs, rest))
  {
    assert ("," + inner)[1..] == inner;
  }

  /** The text of a field, cut where the reader cuts it. */
  lemma FieldText(f: Field, after: string) returns (s: string, tail: string)
    ensures s == PrintField(f) + after && s != "" && s[0] == '\"'
    ensures ReadBody(s[1..]) == Some((f.key, tail))
    ensures tail != "" && tail[0] == ':' && tail[1..] == Print(f.value) + after
  {
    s := PrintField(f) + after;
    tail := ":" + (Print(f.value) + after);
    FieldCut(EscapeBody(f.key), Print(f.value), after, s, tail);
    ReadQuoted(f.key, tail);
  }

  lemma FieldCut(body: string, value: string, after: string, s: string, tail: string)
    requires s == "\"" + body + "\"" + ":" + value + after && tail == ":" + (value + after)
    ensures s != "" && s[0] == '\"' && s[1..] == body + "\"" + tail
    ensures tail != "" && tail[0] == ':' && tail[1..] == value + after
  {
    assert s == "\"" + (body + "\"" + tail);
  }

  lemma ArrText(xs: seq<Json>, rest: string) returns (inner: string)
    requires xs != [] && Numerals(xs[0])
    ensures inner == PrintItems(xs) + "]" + rest
    ensures Print(Arr(xs)) + rest == "[" + inner
    ensures inner[0] != ']'
  {
    inner := PrintItems(xs) + "]" + rest;
    PrintHead(xs[0]);
    assert inner[0] == Print(xs[0])[0];
  }

  lemma ObjText(fs: seq<Field>, rest: string) returns (inner: string)
    requires fs != []
    ensures inner == PrintFields(fs) + "}" + rest
    ensures Print(Obj(fs)) + rest == "{" + inner
    ensures inner[0] != '}'
  {
    inner := PrintFields(fs) + "}" + rest;
    assert PrintField(fs[0])[0] == '\"';
    assert PrintFields(fs)[0] == PrintField(fs[0])[0];
  }

  lemma ItemsText(xs: seq<Json>, rest: string) returns (after: string)
    requires xs != []
    ensures after == if |xs| == 1 then "]" + rest else "," + (PrintItems(xs[1..]) + "]" + rest)
    ensures PrintItems(xs) + "]" + rest == Print(xs[0]) + after
  {
    after := if |xs| == 1 then "]" + rest else "," + (PrintItems(xs[1..]) + "]" + rest);
  }

  lemma FieldsText(fs: seq<Field>, rest: string) returns (after: string)
    requires fs != []
    ensures after == if |fs| == 1 then "}" + rest else "," + (PrintFields(fs[1..]) + "}" + rest)
    ensures PrintFields(fs) + "}" + rest == PrintField(fs[0]) + after
  {
    after := if |fs| == 1 then "}" + rest else "," + (PrintFields(fs[1..]) + "}" + rest);
    JoinCut(PrintField(fs[0]), PrintFields(fs[1..]), "}", rest);
  }

  lemma JoinCut(head: string, others: string, close: string, rest: string)
    ensures head + "," + others + close + rest == head + ("," + (others + close + rest))
    ensures head + close + rest == head + (close + rest)
  {
  }

  lemma {:induction false} ReadPrinted(v: Json, rest: string)
    requires Numerals(v) && Delimited(rest)
    ensures ReadValue(Print(v) + rest) == Some((v, rest))
    decreases v, 1
  {
    match v
    case Arr(xs) =>
      if xs == [] {
        ReadEmptyArr(rest);
        assert Print(Arr([])) == "[]";
      } else {
        var inner := ArrText(xs, rest);
        ReadPrintedItems(xs, rest);
        ReadArr(inner, xs, rest);
      }
    case Obj(fs) =>
      if fs == [] {
        ReadEmptyObj(rest);
        assert Print(Obj([])) == "{}";
      } else {
        var inner := ObjText(fs, rest);
        ReadPrintedFields(fs, rest);
        ReadObj(inner, fs, rest);
      }
    case _ => ReadPrintedLeaf(v, rest);
  }

  lemma {:induction false} ReadPrintedItems(xs: seq<Json>, rest: string)
    requires xs != [] && forall x :: x in xs ==> Numerals(x)
    ensures ReadItems(PrintItems(xs) + "]" + rest) == Some((xs, rest))
    decreases xs, 0
  {
    var after := ItemsText(xs, rest);
    ReadPrinted(xs[0], after);
    if |xs| > 1 {
      ReadPrintedItems(xs[1..], rest);
    }
    ReadItemsNext(xs, rest, after);
  }

  lemma ReadItemsNext(xs: seq<Json>, rest: string, after: string)
    requires xs != [] && ReadValue(Print(xs[0]) + after) == Some((xs[0], after))
    requires after == if |xs| == 1 then "]" + rest else "," + (PrintItems(xs[1..]) + "]" + rest)
    requires |xs| > 1 ==> ReadItems(PrintItems(xs[1..]) + "]" + rest) == Some((xs[1..], rest))
    ensures ReadItems(Print(xs[0]) + after) == Some((xs, rest))
  {
    if |xs| == 1 {
      assert xs == [xs[0]] && after[1..] == rest;
    } else {
      assert after[1..] == PrintItems(xs[1..]) + "]" + rest;
      assert xs == [xs[0]] + xs[1..];
    }
  }

  lemma {:induction false} ReadPrintedFields(fs: seq<Field>, rest: string)
    requires fs != [] && forall f :: f in fs ==> Numerals(f.value)
    ensures ReadFields(PrintFields(fs) + "}" + rest) == Some((fs, rest))
    decreases fs, 0
  {
    var f := fs[0];
    var after := FieldsText(fs, rest);
    ReadPrinted(f.value, after);
    var s, tail := FieldText(f, after);
    if |fs| == 1 {
      ReadLastField(s, f.key, tail, f.value, rest);
      assert fs == [f];
    } else {
      ReadPrintedFields(fs[1..], rest);
      ReadNextField(s, f.key, tail, f.value, PrintFields(fs[1..]) + "}" + rest, fs[1..], rest);
      assert fs == [f] + fs[1..];
    }
  }

  lemma {:induction false} CanonKeepsNumerals(v: Json)
    requires Numerals(v)
    ensures Numerals(Canon(v))
    decreases v
  {
    match v
    case Arr(xs) =>
      forall i | 0 <= i < |xs| ensures Numerals(CanonItems(xs)[i]) {
        CanonKeepsNumerals(xs[i]);
      }
    case Obj(fs) =>
      var cs := CanonFields(fs);
      forall i | 0 <= i < |fs| ensures Numerals(cs[i].value) {
        assert fs[i] in fs;
        CanonKeepsNumerals(fs[i].value);
      }
      Orders.SortMembers(cs, KeyLe);
    case _ =>
  }

  /** Decoding canonical text yields the key-sorted tree. */
  lemma DecodeCanonical(v: Json)
    requires Numerals(v)
    ensures Decode(Print(Canon(v))) == Some(Canon(v))
  {
    CanonKeepsNumerals(v);
    ReadPrinted(Canon(v), "");
    assert Print(Canon(v)) + "" == Print(Canon(v));
  }

  /** Two trees have the same canonical text exactly when they are the same JSON value. */
  lemma TextDecidesEquality(a: Json, b: Json)
    requires Numerals(a) && Numerals(b) && Distinct(a) && Distinct(b)
    ensures Print(Canon(a)) == Print(Canon(b)) <==> Same(a, b)
  {
    DecodeCanonical(a);
    DecodeCanonical(b);
    if Print(Canon(a)) == Print(Canon(b)) {
      CanonImpliesSame(a, b);
    }
    if Same(a, b) {
      SameImpliesCanon(a, b);
    }
  }
}
