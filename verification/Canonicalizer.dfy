/**
 `canonicalize_to_str` (M4/app/integrity/canonicalizer.py) on Python values:
 the recursive serialiser with its loops, proved against the canonical text.
 */
module Canonicalizer {
  import opened Results
  import opened Orders
  import opened Floats
  import opened CanonicalStrings
  import opened CanonicalNumbers
  import opened CanonicalText

  /** The Python values the serialiser dispatches on; `VOpaque` is any unsupported type. */
  datatype Value =
    | VNone
    | VBool(b: bool)
    | VInt(n: int)
    | VFloat(f: Float)
    | VStr(s: string)
    | VList(items: seq<Value>)
    | VDict(entries: seq<Entry>)
    | VOpaque

  datatype Entry = Entry(key: string, value: Value)

  /**
   What the serialiser takes from the Python runtime: NFC normalisation and the
   rendering of floats that are not small integers (16 significant digits).
   */
  datatype Runtime = Runtime(nfc: string -> string, digits16: real -> string)

  ghost predicate Sane(rt: Runtime) {
    forall r :: Numeral(rt.digits16(r))
  }

  /** The integer a number is printed as, when it is printed as an integer. */
  function Exact(v: Value): Option<int> {
    match v
    case VInt(n) => Some(n)
    case VFloat(Finite(r)) =>
      if r == r.Floor as real && -1000000000000000000000.0 < r < 1000000000000000000000.0
      then Some(r.Floor) else None
    case _ => None
  }

  /** `_encode_number`; NaN and the infinities raise. */
  function EncodeNumber(v: Value, rt: Runtime): Option<string>
    requires v.VInt? || v.VFloat?
  {
    match v
    case VInt(n) => Some(IntText(n))
    case VFloat(Finite(r)) =>
      if r == 0.0 then Some("0")
      else if Exact(v).Some? then Some(IntText(r.Floor))
      else Some(rt.digits16(r))
    case VFloat(_) => None
  }

  lemma AtMost21Digits(m: nat)
    ensures |NatText(m)| <= 21 <==> m < 1000000000000000000000
  {
    DigitCount(m, 21);
    TenTo21();
  }

  /** Integral floats of at most 21 digits are written as that integer, others by the rendering. */
  lemma FloatText(r: real, rt: Runtime)
    ensures EncodeNumber(VFloat(Finite(r)), rt) == Some(
              var n := r.Floor;
              if n as real == r && |NatText(if n < 0 then -n else n)| <= 21 then IntText(n) else rt.digits16(r))
  {
    var n := r.Floor;
    AtMost21Digits(if n < 0 then -n else n);
    if n as real == r {
      IntegralText(n, rt);
    }
  }

  lemma IntegralText(n: int, rt: Runtime)
    ensures EncodeNumber(VFloat(Finite(n as real)), rt) ==
            Some(if -1000000000000000000000 < n < 1000000000000000000000 then IntText(n) else rt.digits16(n as real))
  {
    assert (n as real).Floor == n;
    assert n == 0 ==> IntText(n) == "0";
  }

  /** The JSON tree a value denotes, or `None` where serialisation raises. */
  function Render(v: Value, rt: Runtime): Option<Json>
    decreases v, 1
  {
    match v
    case VNone => Some(Null)
    case VBool(b) => Some(Bool(b))
    case VInt(_) => var t :- EncodeNumber(v, rt); Some(Num(t))
    case VFloat(_) => var t :- EncodeNumber(v, rt); Some(Num(t))
    case VStr(s) => Some(Str(rt.nfc(s)))
    case VList(xs) => var js :- RenderItems(xs, rt); Some(Arr(js))
    case VDict(es) => var fs :- RenderEntries(es, rt); Some(Obj(fs))
    case VOpaque => None
  }

  function RenderItems(xs: seq<Value>, rt: Runtime): (r: Option<seq<Json>>)
    ensures r.Some? <==> forall i :: 0 <= i < |xs| ==> Render(xs[i], rt).Some?
    ensures r.Some? ==> |r.value| == |xs|
    ensures r.Some? ==> forall i :: 0 <= i < |xs| ==> Render(xs[i], rt) == Some(r.value[i])
    decreases xs, 0
  {
    if xs == [] then Some([]) else
      var j :- Render(xs[0], rt);
      var js :- RenderItems(xs[1..], rt);
      Some([j] + js)
  }

  function RenderEntries(es: seq<Entry>, rt: Runtime): (r: Option<seq<Field>>)
    ensures r.Some? <==> forall i :: 0 <= i < |es| ==> Render(es[i].value, rt).Some?
    ensures r.Some? ==> |r.value| == |es|
    ensures r.Some? ==> forall i :: 0 <= i < |es| ==>
              r.value[i].key == rt.nfc(es[i].key) && Render(es[i].value, rt) == Some(r.value[i].value)
    decreases es, 0
  {
    if es == [] then Some([]) else
      var j :- Render(es[0].value, rt);
      var fs :- RenderEntries(es[1..], rt);
      Some([Field(rt.nfc(es[0].key), j)] + fs)
  }

  /** The canonical text, or `None` where the serialiser raises. */
  function TextOf(v: Value, rt: Runtime): Option<string> {
    var j :- Render(v, rt);
    Some(Print(Canon(j)))
  }

  /** Somewhere in the value there is a NaN, an infinity or an unsupported object. */
  predicate Unserialisable(v: Value)
    decreases v
  {
    match v
    case VFloat(f) => !f.Finite?
    case VOpaque => true
    case VList(xs) => exists i :: 0 <= i < |xs| && Unserialisable(xs[i])
    case VDict(es) => exists i :: 0 <= i < |es| && Unserialisable(es[i].value)
    case _ => false
  }

  /** Serialisation raises exactly for such values. */
  lemma {:induction false} RaisesExactly(v: Value, rt: Runtime)
    ensures TextOf(v, rt).None? <==> Unserialisable(v)
    decreases v
  {
    match v
    case VList(xs) =>
      forall i | 0 <= i < |xs| ensures Render(xs[i], rt).None? <==> Unserialisable(xs[i]) {
        RaisesExactly(xs[i], rt);
      }
    case VDict(es) =>
      forall i | 0 <= i < |es| ensures Render(es[i].value, rt).None? <==> Unserialisable(es[i].value) {
        assert es[i] in es;
        RaisesExactly(es[i].value, rt);
      }
    case _ =>
  }

  // ---- the serialiser ----

  lemma {:induction false} PrintItemsAppend(xs: seq<Json>, x: Json)
    ensures PrintItems(xs + [x]) == if xs == [] then Print(x) else PrintItems(xs) + "," + Print(x)
  {
    if xs == [] {
      assert xs + [x] == [x];
    } else {
      assert (xs + [x])[1..] == xs[1..] + [x];
      PrintItemsAppend(xs[1..], x);
    }
  }

  lemma {:induction false} PrintFieldsAppend(fs: seq<Field>, f: Field)
    ensures PrintFields(fs + [f]) ==
            if fs == [] then PrintField(f) else PrintFields(fs) + "," + PrintField(f)
  {
    if fs == [] {
      assert fs + [f] == [f];
    } else {
      assert (fs + [f])[1..] == fs[1..] + [f];
      PrintFieldsAppend(fs[1..], f);
    }
  }

  /** The field an entry is emitted as (arbitrary where its value cannot be rendered). */
  function Emitted(e: Entry, rt: Runtime): Field {
    Field(rt.nfc(e.key), match Render(e.value, rt) case Some(j) => Canon(j) case None => Null)
  }

  function Emit(rt: Runtime): Entry -> Field {
    e => Emitted(e, rt)
  }

  /** The comparison induced by `key=_utf16_sort_key`. */
  function EntryLe(rt: Runtime): (Entry, Entry) -> bool {
    (a: Entry, b: Entry) => LexLe(Utf16(rt.nfc(a.key)), Utf16(rt.nfc(b.key)))
  }

  function SortEntries(es: seq<Entry>, rt: Runtime): (r: seq<Entry>)
    ensures forall e :: e in r <==> e in es
  {
    SortMembers(es, EntryLe(rt));
    Sort(es, EntryLe(rt))
  }

  /** The joined text of the first `n` entries. */
  ghost function Pairs(es: seq<Entry>, n: nat, rt: Runtime): string
    requires n <= |es|
  {
    PrintFields(Map(es[..n], Emit(rt)))
  }

  lemma PairsStep(es: seq<Entry>, n: nat, rt: Runtime, t: string)
    requires n < |es| && TextOf(es[n].value, rt) == Some(t)
    ensures var pair := Quote(rt.nfc(es[n].key)) + ":" + t;
            Pairs(es, n + 1, rt) == if n == 0 then pair else Pairs(es, n, rt) + "," + pair
  {
    var f := Emit(rt);
    MapSnoc(es, n, f);
    PrintFieldsAppend(Map(es[..n], f), f(es[n]));
  }

  lemma CanonIsEmit(es: seq<Entry>, rt: Runtime)
    requires RenderEntries(es, rt).Some?
    ensures CanonFields(RenderEntries(es, rt).value) == Map(es, Emit(rt))
  {
  }

  /** A dictionary's canonical form is its emitted fields, sorted. */
  lemma DictText(es: seq<Entry>, rt: Runtime, sorted: seq<Field>)
    requires RenderEntries(es, rt).Some? && sorted == Sort(Map(es, Emit(rt)), KeyLe)
    ensures Canon(Render(VDict(es), rt).value) == Obj(sorted)
    ensures TextOf(VDict(es), rt) == Some("{" + PrintFields(sorted) + "}")
  {
    var fs := RenderEntries(es, rt).value;
    CanonIsEmit(es, rt);
    CanonObj(fs, sorted);
    assert Render(VDict(es), rt) == Some(Obj(fs));
  }

  lemma CanonObj(fs: seq<Field>, sorted: seq<Field>)
    requires sorted == Sort(CanonFields(fs), KeyLe)
    ensures Canon(Obj(fs)) == Obj(sorted) && Print(Obj(sorted)) == "{" + PrintFields(sorted) + "}"
  {
  }

  /** Sorting entries first and rendering after is rendering first and sorting after. */
  lemma SortThenRender(es: seq<Entry>, rt: Runtime)
    requires RenderEntries(es, rt).Some?
    ensures TextOf(VDict(es), rt) == Some("{" + Pairs(SortEntries(es, rt), |SortEntries(es, rt)|, rt) + "}")
  {
    var s := SortEntries(es, rt);
    assert s[..|s|] == s;
    SortMap(es, Emit(rt), EntryLe(rt), KeyLe);
    DictText(es, rt, Map(s, Emit(rt)));
  }

  /** The recursive serialiser. */
  method CanonicalizeToStr(v: Value, rt: Runtime) returns (r: Option<string>)
    ensures r == TextOf(v, rt)
    decreases v, 1
  {
    match v
    case VNone => r := Some("null");
    case VBool(b) => r := Some(if b then "true" else "false");
    case VInt(_) => r := EncodeNumber(v, rt);
    case VFloat(_) => r := EncodeNumber(v, rt);
    case VStr(s) =>
      var t := EncodeString(rt.nfc(s));
      r := Some(t);
    case VList(xs) => r := CanonicalizeList(xs, rt);
    case VDict(es) => r := CanonicalizeDict(es, rt);
    case VOpaque => r := None;
  }

  method CanonicalizeList(xs: seq<Value>, rt: Runtime) returns (r: Option<string>)
    ensures r == TextOf(VList(xs), rt)
    decreases xs, 0
  {
    var text := "";
    for i := 0 to |xs|
      invariant Listed(xs, i, text, rt)
    {
      var t := CanonicalizeToStr(xs[i], rt);
      if t.None? {
        ListFails(xs, i, rt);
        return None;
      }
      ListedStep(xs, i, text, t.value, rt);
      text := if i == 0 then t.value else text + "," + t.value;
    }
    ListText(xs, text, rt);
    r := Some("[" + text + "]");
  }

  ghost function CanonOf(v: Value, rt: Runtime): Json {
    match Render(v, rt) case Some(j) => Canon(j) case None => Null
  }

  ghost function Canonical(rt: Runtime): Value -> Json {
    v => CanonOf(v, rt)
  }

  /** The first `n` items can be rendered and `text` joins them. */
  ghost predicate Listed(xs: seq<Value>, n: nat, text: string, rt: Runtime) {
    n <= |xs| && (forall k :: 0 <= k < n ==> Render(xs[k], rt).Some?) && text == PrintItems(Map(xs[..n], Canonical(rt)))
  }

  lemma ListedStep(xs: seq<Value>, n: nat, text: string, t: string, rt: Runtime)
    requires Listed(xs, n, text, rt) && n < |xs| && TextOf(xs[n], rt) == Some(t)
    ensures Listed(xs, n + 1, if n == 0 then t else text + "," + t, rt)
  {
    var f := Canonical(rt);
    MapSnoc(xs, n, f);
    PrintItemsAppend(Map(xs[..n], f), f(xs[n]));
    TextOfCanon(xs[n], t, rt);
  }

  lemma TextOfCanon(v: Value, t: string, rt: Runtime)
    requires TextOf(v, rt) == Some(t)
    ensures Render(v, rt).Some? && Print(CanonOf(v, rt)) == t
  {
  }

  lemma ListFails(xs: seq<Value>, i: nat, rt: Runtime)
    requires i < |xs| && Render(xs[i], rt).None?
    ensures TextOf(VList(xs), rt) == None
  {
  }

  lemma ListText(xs: seq<Value>, text: string, rt: Runtime)
    requires Listed(xs, |xs|, text, rt)
    ensures TextOf(VList(xs), rt) == Some("[" + text + "]")
  {
    var js, done := RenderItems(xs, rt).value, Map(xs[..|xs|], Canonical(rt));
    assert done == CanonItems(js);
    assert Canon(Arr(js)) == Arr(done);
  }

  /** Keys sorted by UTF-16 code units, then the pair-building loop. */
  method CanonicalizeDict(es: seq<Entry>, rt: Runtime) returns (r: Option<string>)
    ensures r == TextOf(VDict(es), rt)
    decreases es, 0
  {
    var sorted := SortEntries(es, rt);
    var text := "";
    EmptyPairs(sorted, rt);
    for i := 0 to |sorted|
      invariant Joined(sorted, i, text, rt)
    {
      assert sorted[i] in es;
      var k := EncodeString(rt.nfc(sorted[i].key));
      var t := CanonicalizeToStr(sorted[i].value, rt);
      if t.None? {
        DictFails(es, sorted[i], rt);
        return None;
      }
      JoinedStep(sorted, i, text, k + ":" + t.value, t.value, rt);
      text := if i == 0 then k + ":" + t.value else text + "," + (k + ":" + t.value);
    }
    DictDone(es, sorted, text, rt);
    r := Some("{" + text + "}");
  }

  /** The first `n` entries can be rendered and `text` joins them. */
  ghost predicate Joined(es: seq<Entry>, n: nat, text: string, rt: Runtime) {
    n <= |es| && (forall k :: 0 <= k < n ==> Render(es[k].value, rt).Some?) && text == Pairs(es, n, rt)
  }

  lemma EmptyPairs(es: seq<Entry>, rt: Runtime)
    ensures Joined(es, 0, "", rt)
  {
  }

  lemma JoinedStep(es: seq<Entry>, n: nat, text: string, pair: string, t: string, rt: Runtime)
    requires Joined(es, n, text, rt) && n < |es| && TextOf(es[n].value, rt) == Some(t)
    requires pair == Quote(rt.nfc(es[n].key)) + ":" + t
    ensures Joined(es, n + 1, if n == 0 then pair else text + "," + pair, rt)
  {
    PairsStep(es, n, rt, t);
  }

  lemma DictDone(es: seq<Entry>, sorted: seq<Entry>, text: string, rt: Runtime)
    requires sorted == SortEntries(es, rt) && Joined(sorted, |sorted|, text, rt)
    ensures TextOf(VDict(es), rt) == Some("{" + text + "}")
  {
    AllRenderable(es, sorted, rt);
    SortThenRender(es, rt);
  }

  lemma DictFails(es: seq<Entry>, e: Entry, rt: Runtime)
    requires e in es && Render(e.value, rt).None?
    ensures TextOf(VDict(es), rt) == None
  {
    var i :| 0 <= i < |es| && es[i] == e;
  }

  lemma AllRenderable(es: seq<Entry>, sorted: seq<Entry>, rt: Runtime)
    requires forall e :: e in es ==> e in sorted
    requires forall i :: 0 <= i < |sorted| ==> Render(sorted[i].value, rt).Some?
    ensures RenderEntries(es, rt).Some?
  {
    forall i | 0 <= i < |es| ensures Render(es[i].value, rt).Some? {
      assert es[i] in sorted;
    }
  }
}
