/** Insertion-ordered dictionaries (Python's OrderedDict) and colon-joined keys. */
module OrderedDicts {

  predicate DistinctSeq(s: seq<string>) {
    forall i, j :: 0 <= i < j < |s| ==> s[i] != s[j]
  }

  function Without(s: seq<string>, k: string): (r: seq<string>)
    ensures forall x :: x in r <==> x in s && x != k
    ensures k !in s ==> r == s
    ensures |r| <= |s|
  {
    if s == [] then []
    else if s[0] == k then Without(s[1..], k)
    else [s[0]] + Without(s[1..], k)
  }

  lemma {:induction false} WithoutDistinct(s: seq<string>, k: string)
    requires DistinctSeq(s)
    ensures DistinctSeq(Without(s, k))
    ensures |Without(s, k)| == |s| - if k in s then 1 else 0
  {
    if s != [] {
      WithoutDistinct(s[1..], k);
      assert s[0] !in s[1..];
      if s[0] == k {
        assert Without(s, k) == s[1..];
      } else {
        assert s[0] !in Without(s[1..], k);
        assert k in s <==> k in s[1..];
      }
    }
  }

  lemma {:induction false} WithoutAppend(a: seq<string>, b: seq<string>, k: string)
    ensures Without(a + b, k) == Without(a, k) + Without(b, k)
  {
    if a == [] {
      assert a + b == b;
    } else {
      assert (a + b)[1..] == a[1..] + b;
      WithoutAppend(a[1..], b, k);
    }
  }

  datatype OrderedDict<V> = OrderedDict(order: seq<string>, entries: map<string, V>) {

    ghost predicate Valid() {
      DistinctSeq(order) && forall k :: k in order <==> k in entries
    }

    function Size(): nat {
      |order|
    }

    function Delete(k: string): (d: OrderedDict<V>)
      ensures Valid() ==> d.Valid() && d.entries == entries - {k} && k !in d.order
    {
      WithoutDistinctIf(order, k);
      OrderedDict(Without(order, k), entries - {k})
    }

    /** Assigns to a key; a new key goes to the end. */
    function Assign(k: string, v: V): (d: OrderedDict<V>)
      ensures Valid() ==> d.Valid() && d.entries == entries[k := v]
    {
      OrderedDict(if k in order then order else order + [k], entries[k := v])
    }

    function MoveToEnd(k: string): (d: OrderedDict<V>)
      requires k in order
      ensures Valid() ==> d.Valid() && d.entries == entries && d.Size() == Size()
    {
      WithoutDistinctIf(order, k);
      OrderedDict(Without(order, k) + [k], entries)
    }

    /** `popitem(last=False)`: removes the oldest key. */
    function PopFirst(): (d: OrderedDict<V>)
      requires order != []
      ensures Valid() ==> d.Valid() && d.entries == entries - {order[0]} && d.Size() == Size() - 1
    {
      OrderedDict(order[1..], entries - {order[0]})
    }
  }

  lemma WithoutDistinctIf(s: seq<string>, k: string)
    ensures DistinctSeq(s) ==> DistinctSeq(Without(s, k)) && |Without(s, k)| == |s| - if k in s then 1 else 0
  {
    if DistinctSeq(s) {
      WithoutDistinct(s, k);
    }
  }

  /** Joining with a colon is unambiguous when the left part has none. */
  lemma ColonSplit(a: string, b: string, c: string, d: string)
    requires ':' !in a && ':' !in c
    requires a + ":" + b == c + ":" + d
    ensures a == c && b == d
  {
    var l, r := a + ":" + b, c + ":" + d;
    assert l[|a|] == ':' && forall i :: 0 <= i < |a| ==> l[i] == a[i];
    assert r[|c|] == ':' && forall i :: 0 <= i < |c| ==> r[i] == c[i];
    assert |a| == |c|;
    assert a == l[..|a|] && c == r[..|c|];
    assert b == l[|a| + 1..] && d == r[|c| + 1..];
  }
}
