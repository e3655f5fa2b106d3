/**
 What canonical text says about Python values: it identifies them up to key
 order, NFC and number rendering; and exactly when it ignores key order.
 */
module CanonicalIdentity {
  import opened Results
  import opened Orders
  import opened Floats
  import opened CanonicalStrings
  import opened CanonicalNumbers
  import opened CanonicalText
  import opened CanonicalDecoder
  import opened Canonicalizer

  predicate IsNumber(v: Value) {
    v.VInt? || v.VFloat?
  }

  /** Numbers printed as integers compare as integers, other numbers by their rendering. */
  predicate SameNumber(a: Value, b: Value, rt: Runtime)
    requires IsNumber(a) && IsNumber(b)
  {
    if Exact(a).Some? && Exact(b).Some? then Exact(a) == Exact(b)
    else EncodeNumber(a, rt) == EncodeNumber(b, rt)
  }

  function NfcKeys(es: seq<Entry>, rt: Runtime): set<string> {
    set e | e in es :: rt.nfc(e.key)
  }

  /** Equality of values up to key order, normalisation and number rendering. */
  ghost predicate SameValue(a: Value, b: Value, rt: Runtime)
    decreases a
  {
    match (a, b)
    case (VStr(s), VStr(t)) => rt.nfc(s) == rt.nfc(t)
    case (VList(x), VList(y)) =>
      |x| == |y| && forall i :: 0 <= i < |x| ==> SameValue(x[i], y[i], rt)
    case (VDict(x), VDict(y)) =>
      && NfcKeys(x, rt) == NfcKeys(y, rt)
      && forall i, j :: 0 <= i < |x| && 0 <= j < |y| && rt.nfc(x[i].key) == rt.nfc(y[j].key)
           ==> SameValue(x[i].value, y[j].value, rt)
    case _ => if IsNumber(a) && IsNumber(b) then SameNumber(a, b, rt) else a == b
  }

  /** No dictionary, at any depth, has two keys with one normal form. */
  ghost predicate DistinctNfc(v: Value, rt: Runtime)
    decreases v
  {
    match v
    case VList(xs) => forall x :: x in xs ==> DistinctNfc(x, rt)
    case VDict(es) =>
      && (forall i, j :: 0 <= i < j < |es| ==> rt.nfc(es[i].key) != rt.nfc(es[j].key))
      && forall e :: e in es ==> DistinctNfc(e.value, rt)
    case _ => true
  }

  lemma NumberText(a: Value, b: Value, rt: Runtime)
    requires IsNumber(a) && IsNumber(b)
    ensures EncodeNumber(a, rt) == EncodeNumber(b, rt) <==> SameNumber(a, b, rt)
  {
    if Exact(a).Some? && Exact(b).Some? {
      IntRoundTrip(Exact(a).value);
      IntRoundTrip(Exact(b).value);
      assert EncodeNumber(a, rt) == Some(IntText(Exact(a).value));
      assert EncodeNumber(b, rt) == Some(IntText(Exact(b).value));
    }
  }

  lemma {:induction false} RenderedNumerals(v: Value, rt: Runtime)
    requires Sane(rt) && Render(v, rt).Some?
    ensures Numerals(Render(v, rt).value)
    decreases v
  {
    match v
    case VList(xs) =>
      var js := RenderItems(xs, rt).value;
      forall i | 0 <= i < |xs| ensures Numerals(js[i]) {
        RenderedNumerals(xs[i], rt);
      }
    case VDict(es) =>
      var fs := RenderEntries(es, rt).value;
      forall i | 0 <= i < |es| ensures Numerals(fs[i].value) {
        assert es[i] in es;
        RenderedNumerals(es[i].value, rt);
      }
    case VInt(n) => IntTextIsNumeral(n);
    case VFloat(Finite(r)) => IntTextIsNumeral(r.Floor);
    case _ =>
  }

  lemma {:induction false} RenderedDistinct(v: Value, rt: Runtime)
    requires DistinctNfc(v, rt) && Render(v, rt).Some?
    ensures Distinct(Render(v, rt).value)
    decreases v
  {
    match v
    case VList(xs) =>
      var js := RenderItems(xs, rt).value;
      forall i | 0 <= i < |xs| ensures Distinct(js[i]) {
        RenderedDistinct(xs[i], rt);
      }
    case VDict(es) =>
      var fs := RenderEntries(es, rt).value;
      forall i | 0 <= i < |es| ensures Distinct(fs[i].value) {
        assert es[i] in es;
        RenderedDistinct(es[i].value, rt);
      }
    case _ =>
  }

  lemma RenderedKeys(es: seq<Entry>, rt: Runtime)
    requires RenderEntries(es, rt).Some?
    ensures Keys(RenderEntries(es, rt).value) == NfcKeys(es, rt)
  {
    var fs := RenderEntries(es, rt).value;
    forall k | k in NfcKeys(es, rt) ensures k in Keys(fs) {
      var e :| e in es && rt.nfc(e.key) == k;
      var i :| 0 <= i < |es| && es[i] == e;
      assert fs[i] in fs && fs[i].key == k;
    }
    forall k | k in Keys(fs) ensures k in NfcKeys(es, rt) {
      var f :| f in fs && f.key == k;
      var i :| 0 <= i < |fs| && fs[i] == f;
      assert es[i] in es && rt.nfc(es[i].key) == k;
    }
  }

  lemma RenderedSameDicts(x: seq<Entry>, y: seq<Entry>, fx: seq<Field>, fy: seq<Field>, rt: Runtime)
    requires RenderEntries(x, rt) == Some(fx) && RenderEntries(y, rt) == Some(fy)
    requires forall i, j :: 0 <= i < |x| && 0 <= j < |y| ==>
               (Same(fx[i].value, fy[j].value) <==> SameValue(x[i].value, y[j].value, rt))
    ensures Same(Obj(fx), Obj(fy)) <==> SameValue(VDict(x), VDict(y), rt)
  {
    RenderedKeys(x, rt);
    RenderedKeys(y, rt);
  }

  lemma {:induction false} RenderedSame(a: Value, b: Value, rt: Runtime)
    requires Render(a, rt).Some? && Render(b, rt).Some?
    ensures Same(Render(a, rt).value, Render(b, rt).value) <==> SameValue(a, b, rt)
    decreases a
  {
    match (a, b)
    case (VList(x), VList(y)) =>
      if |x| == |y| {
        forall i | 0 <= i < |x|
          ensures Same(RenderItems(x, rt).value[i], RenderItems(y, rt).value[i]) <==> SameValue(x[i], y[i], rt)
        {
          RenderedSame(x[i], y[i], rt);
        }
      }
    case (VDict(x), VDict(y)) =>
      var fx, fy := RenderEntries(x, rt).value, RenderEntries(y, rt).value;
      forall i, j | 0 <= i < |x| && 0 <= j < |y|
        ensures Same(fx[i].value, fy[j].value) <==> SameValue(x[i].value, y[j].value, rt)
      {
        assert x[i] in x && y[j] in y;
        RenderedSame(x[i].value, y[j].value, rt);
      }
      RenderedSameDicts(x, y, fx, fy, rt);
    case _ =>
      if IsNumber(a) && IsNumber(b) {
        NumberText(a, b, rt);
      }
  }

  /** Canonical texts agree exactly when the values do. */
  lemma TextIdentifiesValue(a: Value, b: Value, rt: Runtime)
    requires Sane(rt) && DistinctNfc(a, rt) && DistinctNfc(b, rt)
    requires TextOf(a, rt).Some? && TextOf(b, rt).Some?
    ensures TextOf(a, rt) == TextOf(b, rt) <==> SameValue(a, b, rt)
  {
    RenderedNumerals(a, rt);
    RenderedNumerals(b, rt);
    RenderedDistinct(a, rt);
    RenderedDistinct(b, rt);
    TextDecidesEquality(Render(a, rt).value, Render(b, rt).value);
    RenderedSame(a, b, rt);
  }

  // ---- when key order is immaterial ----

  /** Entries whose keys share a normal form also share their canonical value. */
  ghost predicate NoClash(es: seq<Entry>, rt: Runtime) {
    forall i, j :: 0 <= i < j < |es| && rt.nfc(es[i].key) == rt.nfc(es[j].key)
      ==> TextOf(es[i].value, rt) == TextOf(es[j].value, rt)
  }

  ghost predicate OrderImmaterial(es: seq<Entry>, rt: Runtime) {
    forall fs :: multiset(fs) == multiset(es) ==> TextOf(VDict(fs), rt) == TextOf(VDict(es), rt)
  }

  lemma RenderPermuted(es: seq<Entry>, fs: seq<Entry>, rt: Runtime)
    requires multiset(fs) == multiset(es) && RenderEntries(es, rt).Some?
    ensures RenderEntries(fs, rt).Some?
  {
    forall i | 0 <= i < |fs| ensures Render(fs[i].value, rt).Some? {
      assert fs[i] in multiset(es);
      var k :| 0 <= k < |es| && es[k] == fs[i];
    }
  }

  /** The sorted fields a dictionary is printed from. */
  ghost function Fields(es: seq<Entry>, rt: Runtime): seq<Field> {
    Sort(Map(es, Emit(rt)), KeyLe)
  }

  lemma TextIsFields(es: seq<Entry>, rt: Runtime)
    requires RenderEntries(es, rt).Some?
    ensures TextOf(VDict(es), rt) == Some(Print(Obj(Fields(es, rt))))
    ensures Canon(Render(VDict(es), rt).value) == Obj(Fields(es, rt))
  {
    DictText(es, rt, Fields(es, rt));
  }

  /** Equal texts come from equal sorted fields. */
  lemma FieldsOfText(es: seq<Entry>, fs: seq<Entry>, rt: Runtime)
    requires Sane(rt) && RenderEntries(es, rt).Some? && RenderEntries(fs, rt).Some?
    requires TextOf(VDict(es), rt) == TextOf(VDict(fs), rt)
    ensures Fields(es, rt) == Fields(fs, rt)
  {
    TextIsFields(es, rt);
    TextIsFields(fs, rt);
    RenderedNumerals(VDict(es), rt);
    RenderedNumerals(VDict(fs), rt);
    DecodeCanonical(Render(VDict(es), rt).value);
    DecodeCanonical(Render(VDict(fs), rt).value);
  }

  /** Canonical values are determined by their texts. */
  lemma ValueOfText(a: Value, b: Value, rt: Runtime)
    requires Sane(rt) && TextOf(a, rt).Some? && TextOf(b, rt).Some?
    ensures TextOf(a, rt) == TextOf(b, rt) <==> Canon(Render(a, rt).value) == Canon(Render(b, rt).value)
  {
    RenderedNumerals(a, rt);
    RenderedNumerals(b, rt);
    DecodeCanonical(Render(a, rt).value);
    DecodeCanonical(Render(b, rt).value);
  }

  lemma TiedFields(es: seq<Entry>, rt: Runtime, x: Field, y: Field)
    requires Sane(rt) && NoClash(es, rt) && RenderEntries(es, rt).Some?
    requires x in Map(es, Emit(rt)) && y in Map(es, Emit(rt)) && KeyLe(x, y) && KeyLe(y, x)
    ensures x == y
  {
    KeyLeAntisymmetric(x, y);
    var a := Map(es, Emit(rt));
    var i :| 0 <= i < |a| && a[i] == x;
    var j :| 0 <= j < |a| && a[j] == y;
    assert rt.nfc(es[i].key) == rt.nfc(es[j].key);
    assert TextOf(es[i].value, rt) == TextOf(es[j].value, rt);
    ValueOfText(es[i].value, es[j].value, rt);
  }

  lemma ClashFreeSort(es: seq<Entry>, fs: seq<Entry>, rt: Runtime)
    requires Sane(rt) && NoClash(es, rt) && RenderEntries(es, rt).Some?
    requires multiset(fs) == multiset(es)
    ensures Fields(fs, rt) == Fields(es, rt)
  {
    var a, b := Map(es, Emit(rt)), Map(fs, Emit(rt));
    MapPermutes(es, fs, Emit(rt));
    KeyLePreorder();
    SortSorts(a, KeyLe);
    SortSorts(b, KeyLe);
    SortMembers(a, KeyLe);
    forall x, y | x in a && y in a && KeyLe(x, y) && KeyLe(y, x) ensures x == y {
      TiedFields(es, rt, x, y);
    }
    SortedUnique(Sort(a, KeyLe), Sort(b, KeyLe), KeyLe);
  }

  /** Pulling two clashing entries to the front in either order shows in the output. */
  lemma ClashShows(es: seq<Entry>, rt: Runtime, i: nat, j: nat)
    requires Sane(rt) && RenderEntries(es, rt).Some? && OrderImmaterial(es, rt)
    requires i < j < |es| && rt.nfc(es[i].key) == rt.nfc(es[j].key)
    ensures TextOf(es[i].value, rt) == TextOf(es[j].value, rt)
  {
    var rest := PullFront(es, i, j);
    var g, h := [es[i], es[j]] + rest, [es[j], es[i]] + rest;
    RenderPermuted(es, g, rt);
    RenderPermuted(es, h, rt);
    PermutedText(es, g, rt);
    PermutedText(es, h, rt);
    SwapShows(es[i], es[j], rest, rt);
  }

  lemma PermutedText(es: seq<Entry>, fs: seq<Entry>, rt: Runtime)
    requires OrderImmaterial(es, rt) && multiset(fs) == multiset(es)
    ensures TextOf(VDict(fs), rt) == TextOf(VDict(es), rt)
  {
  }

  lemma SwapShows(a: Entry, b: Entry, rest: seq<Entry>, rt: Runtime)
    requires Sane(rt) && RenderEntries([a, b] + rest, rt).Some? && RenderEntries([b, a] + rest, rt).Some?
    requires rt.nfc(a.key) == rt.nfc(b.key) && TextOf(VDict([a, b] + rest), rt) == TextOf(VDict([b, a] + rest), rt)
    ensures TextOf(a.value, rt) == TextOf(b.value, rt)
  {
    var g, h := [a, b] + rest, [b, a] + rest;
    var p := (f: Field) => f.key == rt.nfc(a.key);
    FieldsOfText(g, h, rt);
    FrontOfSort(a, b, rest, rt, p);
    FrontOfSort(b, a, rest, rt, p);
    assert g[0] == a && g[1] == b;
    assert Emitted(a, rt) == Emitted(b, rt);
    ValueOfText(a.value, b.value, rt);
  }

  lemma FrontOfSort(a: Entry, b: Entry, rest: seq<Entry>, rt: Runtime, p: Field -> bool)
    requires p == ((f: Field) => f.key == rt.nfc(a.key)) && rt.nfc(a.key) == rt.nfc(b.key)
    ensures var out := Filter(Fields([a, b] + rest, rt), p);
            out != [] && out[0] == Emit(rt)(a)
  {
    var xs := Map([a, b] + rest, Emit(rt));
    forall x, y | p(x) && p(y) ensures KeyLe(x, y) {
      LexTotal(Utf16(x.key), Utf16(y.key));
    }
    SortStable(xs, KeyLe, p);
    assert xs[0] == Emit(rt)(a) && p(xs[0]);
  }

  /**
   The text ignores the order of a dictionary's entries exactly when keys that
   NFC merges carry one canonical value.
   */
  lemma OrderImmaterialExactly(es: seq<Entry>, rt: Runtime)
    requires Sane(rt) && RenderEntries(es, rt).Some?
    ensures OrderImmaterial(es, rt) <==> NoClash(es, rt)
  {
    if NoClash(es, rt) {
      forall fs | multiset(fs) == multiset(es) ensures TextOf(VDict(fs), rt) == TextOf(VDict(es), rt) {
        RenderPermuted(es, fs, rt);
        ClashFreeSort(es, fs, rt);
        TextIsFields(es, rt);
        TextIsFields(fs, rt);
      }
    }
    if OrderImmaterial(es, rt) {
      forall i, j | 0 <= i < j < |es| && rt.nfc(es[i].key) == rt.nfc(es[j].key)
        ensures TextOf(es[i].value, rt) == TextOf(es[j].value, rt)
      {
        ClashShows(es, rt, i, j);
      }
    }
  }

  /** NFC folds the Angstrom sign U+212B into U+00C5, so two equal Python dictionaries can have different texts. */
  lemma AngstromClash(rt: Runtime)
    requires Sane(rt) && rt.nfc("\U{212B}") == "\U{C5}" && rt.nfc("\U{C5}") == "\U{C5}"
    ensures var d := [Entry("\U{212B}", VInt(1)), Entry("\U{C5}", VInt(2))];
            !OrderImmaterial(d, rt)
  {
    var d := [Entry("\U{212B}", VInt(1)), Entry("\U{C5}", VInt(2))];
    OrderImmaterialExactly(d, rt);
    IntRoundTrip(1);
    IntRoundTrip(2);
    assert TextOf(d[0].value, rt) == Some(IntText(1)) && TextOf(d[1].value, rt) == Some(IntText(2));
  }
}
