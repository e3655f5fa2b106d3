/**
 Canonical text of JSON trees: printing, the recursive key sort, equality of
 JSON values up to object order, and the proof that the sorted form decides it.
 */
module CanonicalText {
  import opened Orders
  import opened CanonicalStrings
  import opened CanonicalNumbers

  /** A JSON tree; object fields keep the order of the Python dictionary. */
  datatype Json =
    | Null
    | Bool(b: bool)
    | Num(text: string)
    | Str(s: string)
    | Arr(items: seq<Json>)
    | Obj(fields: seq<Field>)

  datatype Field = Field(key: string, value: Json)

  // ---- printing ----

  function Print(v: Json): string
    decreases v, 1
  {
    match v
    case Null => "null"
    case Bool(b) => if b then "true" else "false"
    case Num(t) => t
    case Str(s) => Quote(s)
    case Arr(xs) => "[" + PrintItems(xs) + "]"
    case Obj(fs) => "{" + PrintFields(fs) + "}"
  }

  function PrintItems(xs: seq<Json>): string
    decreases xs, 0
  {
    if xs == [] then ""
    else if |xs| == 1 then Print(xs[0])
    else Print(xs[0]) + "," + PrintItems(xs[1..])
  }

  function PrintFields(fs: seq<Field>): string
    decreases fs, 0
  {
    if fs == [] then ""
    else if |fs| == 1 then PrintField(fs[0])
    else PrintField(fs[0]) + "," + PrintFields(fs[1..])
  }

  function PrintField(f: Field): string
    decreases f, 0
  {
    Quote(f.key) + ":" + Print(f.value)
  }

  /** Every number leaf carries a numeral. */
  ghost predicate Numerals(v: Json)
    decreases v
  {
    match v
    case Num(t) => Numeral(t)
    case Arr(xs) => forall x :: x in xs ==> Numerals(x)
    case Obj(fs) => forall f :: f in fs ==> Numerals(f.value)
    case _ => true
  }

  // ---- the recursive key sort ----

  predicate KeyLe(a: Field, b: Field) {
    LexLe(Utf16(a.key), Utf16(b.key))
  }

  lemma KeyLePreorder()
    ensures Preorder(KeyLe)
  {
    forall x, y ensures KeyLe(x, y) || KeyLe(y, x) {
      LexTotal(Utf16(x.key), Utf16(y.key));
    }
    forall x, y, z | KeyLe(x, y) && KeyLe(y, z) ensures KeyLe(x, z) {
      LexTransitive(Utf16(x.key), Utf16(y.key), Utf16(z.key));
    }
  }

  lemma KeyLeAntisymmetric(a: Field, b: Field)
    requires KeyLe(a, b) && KeyLe(b, a)
    ensures a.key == b.key
  {
    LexAntisymmetric(Utf16(a.key), Utf16(b.key));
    Utf16Injective(a.key, b.key);
  }

  /** The tree with the fields of every object sorted by UTF-16 key. */
  function Canon(v: Json): Json
    decreases v, 1
  {
    match v
    case Arr(xs) => Arr(CanonItems(xs))
    case Obj(fs) => Obj(Sort(CanonFields(fs), KeyLe))
    case _ => v
  }

  function CanonItems(xs: seq<Json>): (r: seq<Json>)
    ensures |r| == |xs|
    ensures forall i :: 0 <= i < |xs| ==> r[i] == Canon(xs[i])
    decreases xs, 0
  {
    if xs == [] then [] else [Canon(xs[0])] + CanonItems(xs[1..])
  }

  function CanonFields(fs: seq<Field>): (r: seq<Field>)
    ensures |r| == |fs|
    ensures forall i :: 0 <= i < |fs| ==> r[i] == Field(fs[i].key, Canon(fs[i].value))
    decreases fs, 0
  {
    if fs == [] then []
    else [Field(fs[0].key, Canon(fs[0].value))] + CanonFields(fs[1..])
  }

  // ---- JSON equality ----

  function Keys(fs: seq<Field>): set<string> {
    set f | f in fs :: f.key
  }

  predicate DistinctKeys(fs: seq<Field>) {
    forall i, j :: 0 <= i < j < |fs| ==> fs[i].key != fs[j].key
  }

  /** No object, at any depth, repeats a key. */
  ghost predicate Distinct(v: Json)
    decreases v
  {
    match v
    case Arr(xs) => forall x :: x in xs ==> Distinct(x)
    case Obj(fs) => DistinctKeys(fs) && forall f :: f in fs ==> Distinct(f.value)
    case _ => true
  }

  /** Equality of JSON values: the order of object fields is immaterial. */
  ghost predicate Same(a: Json, b: Json)
    decreases a
  {
    match (a, b)
    case (Arr(x), Arr(y)) =>
      |x| == |y| && forall i :: 0 <= i < |x| ==> Same(x[i], y[i])
    case (Obj(x), Obj(y)) =>
      && Keys(x) == Keys(y)
      && forall i, j :: 0 <= i < |x| && 0 <= j < |y| && x[i].key == y[j].key
           ==> Same(x[i].value, y[j].value)
    case _ => a == b
  }

  // ---- the sorted form decides equality ----

  ghost predicate SameFields(a: seq<Field>, b: seq<Field>) {
    forall f :: f in a <==> f in b
  }

  lemma {:induction false} MultiplicityOne(fs: seq<Field>, f: Field)
    requires DistinctKeys(fs)
    ensures multiset(fs)[f] == if f in fs then 1 else 0
  {
    if fs != [] {
      MultiplicityOne(fs[1..], f);
      assert fs == [fs[0]] + fs[1..];
      assert multiset(fs) == multiset{fs[0]} + multiset(fs[1..]);
    }
  }

  /** Fields with distinct keys have one sorted arrangement. */
  lemma SortDistinct(a: seq<Field>, b: seq<Field>)
    requires DistinctKeys(a) && DistinctKeys(b) && SameFields(a, b)
    ensures Sort(a, KeyLe) == Sort(b, KeyLe)
  {
    forall f ensures multiset(a)[f] == multiset(b)[f] {
      MultiplicityOne(a, f);
      MultiplicityOne(b, f);
    }
    assert multiset(a) == multiset(b);
    KeyLePreorder();
    SortSorts(a, KeyLe);
    SortSorts(b, KeyLe);
    SortMembers(a, KeyLe);
    var s := Sort(a, KeyLe);
    forall x, y | x in s && y in s && KeyLe(x, y) && KeyLe(y, x) ensures x == y {
      KeyLeAntisymmetric(x, y);
    }
    SortedUnique(s, Sort(b, KeyLe), KeyLe);
  }

  /** The keys differ, and at the first difference of their UTF-16 forms `a` has the smaller code unit, or ends. */
  ghost predicate KeyBelow(a: Field, b: Field) {
    a.key != b.key && exists k: nat :: FirstDifference(Utf16(a.key), Utf16(b.key), k)
  }

  /** At every depth the keys of an object ascend strictly. */
  ghost predicate Ascending(v: Json)
    decreases v
  {
    match v
    case Arr(xs) => forall x :: x in xs ==> Ascending(x)
    case Obj(fs) =>
      && (forall i, j :: 0 <= i < j < |fs| ==> KeyBelow(fs[i], fs[j]))
      && (forall f :: f in fs ==> Ascending(f.value))
    case _ => true
  }

  /** One object's sorted keys ascend strictly. */
  lemma KeysStrictlyAscend(fs: seq<Field>, i: nat, j: nat)
    requires DistinctKeys(fs) && i < j < |fs|
    ensures var out := Canon(Obj(fs)).fields;
            |out| == |fs| && KeyBelow(out[i], out[j])
  {
    var cs := CanonFields(fs);
    var out := Sort(cs, KeyLe);
    KeyLePreorder();
    SortSorts(cs, KeyLe);
    assert KeyLe(out[i], out[j]);
    LexLeExactly(Utf16(out[i].key), Utf16(out[j].key));
    SortedDistinct(cs, i, j);
  }

  /** Section 3.2.3 of RFC 8785: emitted keys ascend strictly, in nested objects, too. */
  lemma {:induction false} CanonAscends(v: Json)
    requires Distinct(v)
    ensures Ascending(Canon(v))
    decreases v, 1
  {
    match v
    case Arr(xs) =>
      forall x | x in CanonItems(xs) ensures Ascending(x) {
        var i :| 0 <= i < |xs| && x == Canon(xs[i]);
        CanonAscends(xs[i]);
      }
    case Obj(fs) => FieldsAscend(fs, v);
    case _ =>
  }

  lemma {:induction false} FieldsAscend(fs: seq<Field>, v: Json)
    requires v == Obj(fs) && Distinct(v)
    ensures Ascending(Canon(v))
    decreases v, 0
  {
    var out := Canon(v).fields;
    KeyLePreorder();
    SortSorts(CanonFields(fs), KeyLe);
    forall i, j | 0 <= i < j < |out| ensures KeyBelow(out[i], out[j]) {
      KeysStrictlyAscend(fs, i, j);
    }
    SortMembers(CanonFields(fs), KeyLe);
    forall f | f in out ensures Ascending(f.value) {
      var i :| 0 <= i < |fs| && f == Field(fs[i].key, Canon(fs[i].value));
      assert fs[i] in fs;
      CanonAscends(fs[i].value);
    }
  }

  lemma SortedDistinct(fs: seq<Field>, i: nat, j: nat)
    requires DistinctKeys(fs) && i < j < |Sort(fs, KeyLe)|
    ensures Sort(fs, KeyLe)[i].key != Sort(fs, KeyLe)[j].key
  {
    var s := Sort(fs, KeyLe);
    if s[i].key == s[j].key {
      SortMembers(fs, KeyLe);
      assert s[i] in fs && s[j] in fs;
      RepeatedTwice(s, i, j);
      MultiplicityOne(fs, s[i]);
    }
  }

  lemma {:induction false} SameImpliesCanon(a: Json, b: Json)
    requires Distinct(a) && Distinct(b) && Same(a, b)
    ensures Canon(a) == Canon(b)
    decreases a
  {
    match (a, b)
    case (Arr(x), Arr(y)) =>
      forall i | 0 <= i < |x| ensures Canon(x[i]) == Canon(y[i]) {
        SameImpliesCanon(x[i], y[i]);
      }
      assert CanonItems(x) == CanonItems(y);
    case (Obj(x), Obj(y)) =>
      forall i, j | 0 <= i < |x| && 0 <= j < |y| && x[i].key == y[j].key
        ensures Canon(x[i].value) == Canon(y[j].value)
      {
        assert x[i] in x && y[j] in y;
        SameImpliesCanon(x[i].value, y[j].value);
      }
      SameCanonFields(x, y);
      SortDistinct(CanonFields(x), CanonFields(y));
    case _ =>
  }

  lemma SameCanonFields(x: seq<Field>, y: seq<Field>)
    requires Keys(x) == Keys(y)
    requires forall i, j :: 0 <= i < |x| && 0 <= j < |y| && x[i].key == y[j].key
               ==> Canon(x[i].value) == Canon(y[j].value)
    ensures SameFields(CanonFields(x), CanonFields(y))
  {
    var cx, cy := CanonFields(x), CanonFields(y);
    forall i | 0 <= i < |cx| ensures cx[i] in cy {
      assert x[i] in x && x[i].key in Keys(y);
      var g :| g in y && g.key == x[i].key;
      var j :| 0 <= j < |y| && y[j] == g;
      assert cy[j] == cx[i];
    }
    forall j | 0 <= j < |cy| ensures cy[j] in cx {
      assert y[j] in y && y[j].key in Keys(x);
      var g :| g in x && g.key == y[j].key;
      var i :| 0 <= i < |x| && x[i] == g;
      assert cx[i] == cy[j];
    }
  }

  lemma {:induction false} CanonImpliesSame(a: Json, b: Json)
    requires Distinct(a) && Distinct(b) && Canon(a) == Canon(b)
    ensures Same(a, b)
    decreases a
  {
    match (a, b)
    case (Arr(x), Arr(y)) =>
      forall i | 0 <= i < |x| ensures Same(x[i], y[i]) {
        assert CanonItems(x)[i] == CanonItems(y)[i];
        CanonImpliesSame(x[i], y[i]);
      }
    case (Obj(x), Obj(y)) =>
      CanonSameFields(x, y);
      SameFieldsKeys(x, y);
      forall i, j | 0 <= i < |x| && 0 <= j < |y| && x[i].key == y[j].key
        ensures Same(x[i].value, y[j].value)
      {
        SameFieldsValue(x, y, i, j);
        assert x[i] in x && y[j] in y;
        CanonImpliesSame(x[i].value, y[j].value);
      }
    case _ =>
  }

  lemma CanonSameFields(x: seq<Field>, y: seq<Field>)
    requires Canon(Obj(x)) == Canon(Obj(y))
    ensures SameFields(CanonFields(x), CanonFields(y))
  {
    SortMembers(CanonFields(x), KeyLe);
    SortMembers(CanonFields(y), KeyLe);
  }

  lemma SameFieldsValue(x: seq<Field>, y: seq<Field>, i: nat, j: nat)
    requires SameFields(CanonFields(x), CanonFields(y)) && DistinctKeys(y)
    requires i < |x| && j < |y| && x[i].key == y[j].key
    ensures Canon(x[i].value) == Canon(y[j].value)
  {
    var cx, cy := CanonFields(x), CanonFields(y);
    assert cx[i] in cy;
    var k :| 0 <= k < |cy| && cy[k] == cx[i];
    assert y[k].key == y[j].key;
    assert k == j;
  }

  lemma SameFieldsKeys(x: seq<Field>, y: seq<Field>)
    requires SameFields(CanonFields(x), CanonFields(y))
    ensures Keys(x) == Keys(y)
  {
    CanonKeys(x);
    CanonKeys(y);
  }

  lemma CanonKeys(fs: seq<Field>)
    ensures Keys(CanonFields(fs)) == Keys(fs)
  {
    var cs := CanonFields(fs);
    forall k | k in Keys(fs) ensures k in Keys(cs) {
      var f :| f in fs && f.key == k;
      var i :| 0 <= i < |fs| && fs[i] == f;
      assert cs[i] in cs && cs[i].key == k;
    }
    forall k | k in Keys(cs) ensures k in Keys(fs) {
      var f :| f in cs && f.key == k;
      var i :| 0 <= i < |cs| && cs[i] == f;
      assert fs[i] in fs && fs[i].key == k;
    }
  }
}
