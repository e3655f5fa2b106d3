/**
 Loading canonical text back into Python values: an independent reading of JSON
 trees, and the round trip from a value through its text.
 */
module CanonicalLoading {
  import opened Results
  import opened Orders
  import opened CanonicalNumbers
  import opened CanonicalText
  import opened CanonicalDecoder
  import opened Canonicalizer
  import opened CanonicalIdentity

  /** The Python value a JSON tree loads as; numerals are read as integers. */
  function Loaded(j: Json): Value
    decreases j, 1
  {
    match j
    case Null => VNone
    case Bool(b) => VBool(b)
    case Num(t) => VInt(IntValue(t))
    case Str(s) => VStr(s)
    case Arr(xs) => VList(LoadedItems(xs))
    case Obj(fs) => VDict(LoadedFields(fs))
  }

  function LoadedItems(xs: seq<Json>): (r: seq<Value>)
    ensures |r| == |xs| && forall i :: 0 <= i < |xs| ==> r[i] == Loaded(xs[i])
    decreases xs, 0
  {
    if xs == [] then [] else [Loaded(xs[0])] + LoadedItems(xs[1..])
  }

  function LoadedFields(fs: seq<Field>): (r: seq<Entry>)
    ensures |r| == |fs| && forall i :: 0 <= i < |fs| ==> r[i] == Entry(fs[i].key, Loaded(fs[i].value))
    decreases fs, 0
  {
    if fs == [] then [] else [Entry(fs[0].key, Loaded(fs[0].value))] + LoadedFields(fs[1..])
  }

  /** The value can be written as JSON, and every number in it is written as an integer. */
  predicate Integral(v: Value)
    decreases v
  {
    match v
    case VFloat(_) => Exact(v).Some?
    case VList(xs) => forall i :: 0 <= i < |xs| ==> Integral(xs[i])
    case VDict(es) => forall i :: 0 <= i < |es| ==> Integral(es[i].value)
    case VOpaque => false
    case _ => true
  }

  ghost predicate Idempotent(f: string -> string) {
    forall s :: f(f(s)) == f(s)
  }

  lemma LoadedNumber(v: Value, rt: Runtime)
    requires IsNumber(v) && Exact(v).Some?
    ensures Render(v, rt) == Some(Num(IntText(Exact(v).value)))
    ensures SameValue(VInt(IntValue(IntText(Exact(v).value))), v, rt)
  {
    IntRoundTrip(Exact(v).value);
    assert Exact(v).value == 0 ==> IntText(Exact(v).value) == "0";
  }

  /** Each loaded entry of a canonical dictionary comes from an entry of the value. */
  lemma LoadedEntry(fs: seq<Field>, i: nat) returns (q: nat)
    requires i < |LoadedFields(Canon(Obj(fs)).fields)|
    ensures q < |fs|
    ensures LoadedFields(Canon(Obj(fs)).fields)[i] == Entry(fs[q].key, Loaded(Canon(fs[q].value)))
  {
    var cs := CanonFields(fs);
    SortMembers(cs, KeyLe);
    var f := Canon(Obj(fs)).fields[i];
    assert f in cs;
    q :| 0 <= q < |cs| && cs[q] == f;
  }

  lemma EntryLoaded(fs: seq<Field>, q: nat) returns (i: nat)
    requires q < |fs|
    ensures i < |LoadedFields(Canon(Obj(fs)).fields)| && LoadedFields(Canon(Obj(fs)).fields)[i].key == fs[q].key
  {
    var cs := CanonFields(fs);
    SortMembers(cs, KeyLe);
    assert cs[q] in Sort(cs, KeyLe);
    i :| 0 <= i < |Sort(cs, KeyLe)| && Sort(cs, KeyLe)[i] == cs[q];
  }

  lemma LoadedKeys(es: seq<Entry>, fs: seq<Field>, rt: Runtime)
    requires Idempotent(rt.nfc) && |fs| == |es| && forall i :: 0 <= i < |es| ==> fs[i].key == rt.nfc(es[i].key)
    ensures NfcKeys(LoadedFields(Canon(Obj(fs)).fields), rt) == NfcKeys(es, rt)
  {
    var x := LoadedFields(Canon(Obj(fs)).fields);
    forall k | k in NfcKeys(x, rt) ensures k in NfcKeys(es, rt) {
      var e :| e in x && rt.nfc(e.key) == k;
      var i :| 0 <= i < |x| && x[i] == e;
      var q := LoadedEntry(fs, i);
      assert es[q] in es && rt.nfc(es[q].key) == k;
    }
    forall k | k in NfcKeys(es, rt) ensures k in NfcKeys(x, rt) {
      var e :| e in es && rt.nfc(e.key) == k;
      var q :| 0 <= q < |es| && es[q] == e;
      var i := EntryLoaded(fs, q);
      assert x[i] in x && rt.nfc(x[i].key) == k;
    }
  }

  /** What is loaded from a value's canonical tree is the value, up to key order and NFC. */
  lemma {:induction false} LoadedIsSame(v: Value, rt: Runtime)
    requires Integral(v) && Idempotent(rt.nfc) && DistinctNfc(v, rt) && Render(v, rt).Some?
    ensures SameValue(Loaded(Canon(Render(v, rt).value)), v, rt)
    decreases v, 1
  {
    match v
    case VInt(_) => LoadedNumber(v, rt);
    case VFloat(_) => LoadedNumber(v, rt);
    case VList(xs) =>
      var js := RenderItems(xs, rt).value;
      forall i | 0 <= i < |xs| ensures SameValue(Loaded(Canon(js[i])), xs[i], rt) {
        LoadedIsSame(xs[i], rt);
      }
    case VDict(es) => LoadedDict(v, es, rt);
    case _ =>
  }

  lemma {:induction false} LoadedDict(v: Value, es: seq<Entry>, rt: Runtime)
    requires v == VDict(es)
    requires Integral(v) && Idempotent(rt.nfc) && DistinctNfc(v, rt) && Render(v, rt).Some?
    ensures SameValue(Loaded(Canon(Render(v, rt).value)), v, rt)
    decreases v, 0
  {
    var fs := RenderEntries(es, rt).value;
    var x := LoadedFields(Canon(Obj(fs)).fields);
    LoadedKeys(es, fs, rt);
    forall i, j | 0 <= i < |x| && 0 <= j < |es| && rt.nfc(x[i].key) == rt.nfc(es[j].key)
      ensures SameValue(x[i].value, es[j].value, rt)
    {
      var q := LoadedEntry(fs, i);
      assert es[j] in es && es[q] in es && q == j;
      LoadedIsSame(es[j].value, rt);
    }
  }

  /**
   The round trip: a value whose numbers are integers is recovered from its
   canonical text, up to key order and NFC.
   */
  lemma TextLoadsBack(v: Value, rt: Runtime)
    requires Sane(rt) && Integral(v) && Idempotent(rt.nfc) && DistinctNfc(v, rt) && TextOf(v, rt).Some?
    ensures Decode(TextOf(v, rt).value).Some?
    ensures SameValue(Loaded(Decode(TextOf(v, rt).value).value), v, rt)
  {
    RenderedNumerals(v, rt);
    DecodeCanonical(Render(v, rt).value);
    LoadedIsSame(v, rt);
  }
}
