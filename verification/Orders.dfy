/**
 Orders and sorting shared by the models: lexicographic comparison of integer
 tuples and strings, and the stable sort behind Python's `sorted(xs, key=...)`.
 */
module Orders {

  /** Python's `<=` on tuples of integers. */
  predicate LexLe(a: seq<int>, b: seq<int>) {
    a == [] || (b != [] && (a[0] < b[0] || (a[0] == b[0] && LexLe(a[1..], b[1..]))))
  }

  lemma {:induction false} LexTotal(a: seq<int>, b: seq<int>)
    ensures LexLe(a, b) || LexLe(b, a)
  {
    if a != [] && b != [] && a[0] == b[0] {
      LexTotal(a[1..], b[1..]);
    }
  }

  lemma {:induction false} LexTransitive(a: seq<int>, b: seq<int>, c: seq<int>)
    requires LexLe(a, b) && LexLe(b, c)
    ensures LexLe(a, c)
  {
    if a != [] && a[0] == b[0] && b[0] == c[0] {
      LexTransitive(a[1..], b[1..], c[1..]);
    }
  }

  lemma {:induction false} LexAntisymmetric(a: seq<int>, b: seq<int>)
    requires LexLe(a, b) && LexLe(b, a)
    ensures a == b
  {
    if a != [] {
      LexAntisymmetric(a[1..], b[1..]);
      assert a == [a[0]] + a[1..] && b == [b[0]] + b[1..];
    }
  }

  /** The two agree up to where `a` ends, or up to an element at which `a` has the smaller number. */
  ghost predicate FirstDifference(a: seq<int>, b: seq<int>, k: nat) {
    k <= |a| && k <= |b| && a[..k] == b[..k] && (k == |a| || (k < |b| && a[k] < b[k]))
  }

  /** The comparison goes by the first difference. */
  lemma {:induction false} LexLeExactly(a: seq<int>, b: seq<int>)
    ensures LexLe(a, b) <==> exists k: nat :: FirstDifference(a, b, k)
  {
    if a == [] {
      assert FirstDifference(a, b, 0);
    } else if b != [] && a[0] == b[0] {
      LexLeExactly(a[1..], b[1..]);
      if LexLe(a, b) {
        var k: nat :| FirstDifference(a[1..], b[1..], k);
        assert a[..k + 1] == [a[0]] + a[1..][..k] && b[..k + 1] == [b[0]] + b[1..][..k];
        assert FirstDifference(a, b, k + 1);
      } else {
        forall k: nat ensures !FirstDifference(a, b, k) {
          if FirstDifference(a, b, k) {
            DifferenceInTail(a, b, k);
          }
        }
      }
    } else {
      assert LexLe(a, b) ==> FirstDifference(a, b, 0);
      forall k: nat | FirstDifference(a, b, k) ensures LexLe(a, b) {
        assert k > 0 ==> a[..k][0] == b[..k][0];
      }
    }
  }

  lemma DifferenceInTail(a: seq<int>, b: seq<int>, k: nat)
    requires a != [] && b != [] && a[0] == b[0] && FirstDifference(a, b, k)
    ensures k > 0 && FirstDifference(a[1..], b[1..], k - 1)
  {
    assert a[1..][..k - 1] == a[..k][1..] && b[1..][..k - 1] == b[..k][1..];
  }

  /** The code points of a string, the tuple Python compares strings by. */
  function CodePoints(s: string): (r: seq<int>)
    ensures |r| == |s|
    ensures forall i :: 0 <= i < |s| ==> r[i] == s[i] as int
  {
    seq(|s|, i requires 0 <= i < |s| => s[i] as int)
  }

  lemma CodePointsInjective(a: string, b: string)
    requires CodePoints(a) == CodePoints(b)
    ensures a == b
  {
    assert forall i :: 0 <= i < |a| ==> CodePoints(a)[i] == CodePoints(b)[i];
  }

  /** Total and transitive: what a sort key induces. */
  ghost predicate Preorder<T(!new)>(le: (T, T) -> bool) {
    && (forall x, y :: le(x, y) || le(y, x))
    && (forall x, y, z :: le(x, y) && le(y, z) ==> le(x, z))
  }

  ghost predicate SortedBy<T>(xs: seq<T>, le: (T, T) -> bool) {
    forall i, j :: 0 <= i < j < |xs| ==> le(xs[i], xs[j])
  }

  function Insert<T>(x: T, ys: seq<T>, le: (T, T) -> bool): seq<T> {
    if ys == [] || le(x, ys[0]) then [x] + ys else [ys[0]] + Insert(x, ys[1..], le)
  }

  /** The stable sort: of two equivalent elements the earlier one stays first. */
  function Sort<T>(xs: seq<T>, le: (T, T) -> bool): (r: seq<T>)
    ensures |r| == |xs|
    ensures multiset(r) == multiset(xs)
  {
    if xs == [] then [] else
      var r := Insert(xs[0], Sort(xs[1..], le), le);
      InsertPermutes(xs[0], Sort(xs[1..], le), le);
      assert xs == [xs[0]] + xs[1..];
      r
  }

  lemma {:induction false} InsertPermutes<T>(x: T, ys: seq<T>, le: (T, T) -> bool)
    ensures |Insert(x, ys, le)| == |ys| + 1
    ensures multiset(Insert(x, ys, le)) == multiset(ys) + multiset{x}
  {
    if ys != [] && !le(x, ys[0]) {
      InsertPermutes(x, ys[1..], le);
      assert ys == [ys[0]] + ys[1..];
    }
  }

  lemma {:induction false} InsertKeepsSorted<T(!new)>(x: T, ys: seq<T>, le: (T, T) -> bool)
    requires Preorder(le) && SortedBy(ys, le)
    ensures SortedBy(Insert(x, ys, le), le)
  {
    if ys != [] && !le(x, ys[0]) {
      var rest := Insert(x, ys[1..], le);
      InsertKeepsSorted(x, ys[1..], le);
      InsertPermutes(x, ys[1..], le);
      forall j | 0 <= j < |rest| ensures le(ys[0], rest[j]) {
        assert rest[j] in multiset(rest);
      }
    }
  }

  lemma {:induction false} SortSorts<T(!new)>(xs: seq<T>, le: (T, T) -> bool)
    requires Preorder(le)
    ensures SortedBy(Sort(xs, le), le)
  {
    if xs != [] {
      SortSorts(xs[1..], le);
      InsertKeepsSorted(xs[0], Sort(xs[1..], le), le);
    }
  }

  /** Membership is what most callers need of the permutation. */
  lemma SortMembers<T>(xs: seq<T>, le: (T, T) -> bool)
    ensures forall x :: x in Sort(xs, le) <==> x in xs
  {
    forall x ensures x in Sort(xs, le) <==> x in xs {
      assert x in Sort(xs, le) <==> x in multiset(Sort(xs, le));
      assert x in xs <==> x in multiset(xs);
    }
  }

  lemma SortedHeads<T>(a: seq<T>, b: seq<T>, le: (T, T) -> bool)
    requires multiset(a) == multiset(b) && a != [] && b != []
    requires SortedBy(a, le) && SortedBy(b, le) && TiesEqual(a, le)
    ensures a[0] == b[0]
  {
    assert a[0] in multiset(b) && b[0] in multiset(a);
    var j :| 0 <= j < |b| && b[j] == a[0];
    var i :| 0 <= i < |a| && a[i] == b[0];
    if i != 0 && j != 0 {
      assert le(a[0], a[i]) && le(b[0], b[j]);
    }
  }

  lemma TailMultiset<T>(a: seq<T>)
    requires a != []
    ensures multiset(a[1..]) == multiset(a) - multiset{a[0]}
  {
    assert a == [a[0]] + a[1..];
  }

  lemma TailsMatch<T>(a: seq<T>, b: seq<T>)
    requires multiset(a) == multiset(b) && a != [] && b != [] && a[0] == b[0]
    ensures multiset(a[1..]) == multiset(b[1..])
  {
    TailMultiset(a);
    TailMultiset(b);
  }

  lemma SameLength<T>(xs: seq<T>, ys: seq<T>)
    requires multiset(xs) == multiset(ys)
    ensures |xs| == |ys|
  {
    assert |xs| == |multiset(xs)| && |ys| == |multiset(ys)|;
  }

  ghost predicate TiesEqual<T>(a: seq<T>, le: (T, T) -> bool) {
    forall i, j :: 0 <= i < |a| && 0 <= j < |a| && le(a[i], a[j]) && le(a[j], a[i]) ==> a[i] == a[j]
  }

  /** Two sorted arrangements of one multiset agree when ties are equal elements. */
  lemma {:induction false} SortedUnique<T>(a: seq<T>, b: seq<T>, le: (T, T) -> bool)
    requires multiset(a) == multiset(b)
    requires SortedBy(a, le) && SortedBy(b, le) && TiesEqual(a, le)
    ensures a == b
  {
    SameLength(a, b);
    if a != [] {
      SortedHeads(a, b, le);
      TailsMatch(a, b);
      SortedUnique(a[1..], b[1..], le);
      assert a == [a[0]] + a[1..] && b == [b[0]] + b[1..];
    }
  }

  /** Sorting after a key-preserving map is mapping after the sort. */
  function Map<S, T>(xs: seq<S>, f: S -> T): (r: seq<T>)
    ensures |r| == |xs|
    ensures forall i :: 0 <= i < |xs| ==> r[i] == f(xs[i])
  {
    seq(|xs|, i requires 0 <= i < |xs| => f(xs[i]))
  }

  lemma MapSnoc<S, T>(xs: seq<S>, n: nat, f: S -> T)
    requires n < |xs|
    ensures Map(xs[..n + 1], f) == Map(xs[..n], f) + [f(xs[n])]
  {
  }

  lemma {:induction false} InsertMap<S(!new), T>(
      x: S, ys: seq<S>, f: S -> T, leS: (S, S) -> bool, leT: (T, T) -> bool)
    requires forall a, b :: leS(a, b) == leT(f(a), f(b))
    ensures Insert(f(x), Map(ys, f), leT) == Map(Insert(x, ys, leS), f)
  {
    if ys != [] {
      assert Map(ys, f)[1..] == Map(ys[1..], f);
      InsertMap(x, ys[1..], f, leS, leT);
    }
  }

  lemma {:induction false} SortMap<S(!new), T>(
      xs: seq<S>, f: S -> T, leS: (S, S) -> bool, leT: (T, T) -> bool)
    requires forall a, b :: leS(a, b) == leT(f(a), f(b))
    ensures Sort(Map(xs, f), leT) == Map(Sort(xs, leS), f)
  {
    if xs != [] {
      assert Map(xs, f)[1..] == Map(xs[1..], f);
      SortMap(xs[1..], f, leS, leT);
      InsertMap(xs[0], Sort(xs[1..], leS), f, leS, leT);
    }
  }

  function Filter<T>(xs: seq<T>, p: T -> bool): seq<T> {
    if xs == [] then []
    else (if p(xs[0]) then [xs[0]] else []) + Filter(xs[1..], p)
  }

  lemma Associates<T>(x: seq<T>, y: seq<T>, z: seq<T>)
    ensures x + (y + z) == x + y + z
  {
  }

  lemma {:induction false} FilterAppend<T>(a: seq<T>, b: seq<T>, p: T -> bool)
    ensures Filter(a + b, p) == Filter(a, p) + Filter(b, p)
  {
    if a == [] {
      assert a + b == b;
    } else {
      assert (a + b)[0] == a[0] && (a + b)[1..] == a[1..] + b;
      FilterAppend(a[1..], b, p);
      Associates(if p(a[0]) then [a[0]] else [], Filter(a[1..], p), Filter(b, p));
    }
  }

  /** Elements that are equivalent to each other keep their order under `Sort`. */
  lemma {:induction false} SortStable<T(!new)>(xs: seq<T>, le: (T, T) -> bool, p: T -> bool)
    requires forall x, y :: p(x) && p(y) ==> le(x, y)
    ensures Filter(Sort(xs, le), p) == Filter(xs, p)
  {
    if xs != [] {
      SortStable(xs[1..], le, p);
      InsertStable(xs[0], Sort(xs[1..], le), le, p);
    }
  }

  lemma {:induction false} InsertStable<T(!new)>(x: T, ys: seq<T>, le: (T, T) -> bool, p: T -> bool)
    requires forall x, y :: p(x) && p(y) ==> le(x, y)
    ensures Filter(Insert(x, ys, le), p) == Filter([x] + ys, p)
  {
    assert ([x] + ys)[1..] == ys;
    if ys != [] && !le(x, ys[0]) {
      var rest := Insert(x, ys[1..], le);
      assert ([ys[0]] + rest)[1..] == rest;
      assert ([x] + ys[1..])[1..] == ys[1..];
      InsertStable(x, ys[1..], le, p);
    }
  }

  lemma {:induction false} FilterMembers<T>(xs: seq<T>, p: T -> bool)
    ensures forall x :: x in Filter(xs, p) <==> x in xs && p(x)
  {
    if xs != [] {
      FilterMembers(xs[1..], p);
    }
  }

  lemma {:induction false} FilterMultiset<T(!new)>(xs: seq<T>, f: T -> bool, x: T)
    ensures multiset(Filter(xs, f))[x] == if f(x) then multiset(xs)[x] else 0
  {
    if xs != [] {
      FilterMultiset(xs[1..], f, x);
      assert xs == [xs[0]] + xs[1..];
    }
  }

  lemma FilterPermutes<T(!new)>(xs: seq<T>, ys: seq<T>, f: T -> bool)
    requires multiset(xs) == multiset(ys)
    ensures multiset(Filter(xs, f)) == multiset(Filter(ys, f))
  {
    var a, b := multiset(Filter(xs, f)), multiset(Filter(ys, f));
    forall x ensures a[x] == b[x] {
      FilterMultiset(xs, f, x);
      FilterMultiset(ys, f, x);
    }
    assert a == b;
  }

  lemma {:induction false} FilterAgree<T(!new)>(xs: seq<T>, f: T -> bool, g: T -> bool)
    requires forall x :: x in xs ==> f(x) == g(x)
    ensures Filter(xs, f) == Filter(xs, g)
  {
    if xs != [] {
      FilterAgree(xs[1..], f, g);
    }
  }

  lemma {:induction false} FilterTwice<T(!new)>(xs: seq<T>, p: T -> bool, q: T -> bool, r: T -> bool)
    requires forall x :: r(x) <==> p(x) && q(x)
    ensures Filter(Filter(xs, p), q) == Filter(xs, r)
  {
    if xs != [] {
      FilterTwice(xs[1..], p, q, r);
      var rest := Filter(xs[1..], p);
      assert ([xs[0]] + rest)[1..] == rest && [] + rest == rest;
    }
  }

  lemma {:induction false} FilterAll<T>(xs: seq<T>, p: T -> bool)
    requires forall x :: x in xs ==> p(x)
    ensures Filter(xs, p) == xs
  {
    if xs != [] {
      FilterAll(xs[1..], p);
    }
  }

  lemma {:induction false} FilterNone<T>(xs: seq<T>, p: T -> bool)
    requires forall x :: x in xs ==> !p(x)
    ensures Filter(xs, p) == []
  {
    if xs != [] {
      FilterNone(xs[1..], p);
    }
  }

  lemma {:induction false} InsertFilter<T(!new)>(x: T, ys: seq<T>, le: (T, T) -> bool, p: T -> bool)
    requires Preorder(le) && SortedBy(ys, le)
    ensures Filter(Insert(x, ys, le), p) == if p(x) then Insert(x, Filter(ys, p), le) else Filter(ys, p)
  {
    if ys != [] && !le(x, ys[0]) {
      var rest := Insert(x, ys[1..], le);
      InsertFilter(x, ys[1..], le, p);
      assert Insert(x, ys, le)[1..] == rest;
      if p(ys[0]) {
        assert Filter(ys, p)[1..] == Filter(ys[1..], p);
      } else if p(x) {
        assert Filter(ys, p) == Filter(ys[1..], p);
      }
    } else {
      assert ([x] + ys)[1..] == ys;
      FilterMembers(ys, p);
      var kept := Filter(ys, p);
      if kept != [] {
        assert kept[0] in ys;
        var i :| 0 <= i < |ys| && ys[i] == kept[0];
        assert i == 0 || le(ys[0], ys[i]);
        assert le(x, kept[0]);
      }
    }
  }

  /** Sorting commutes with filtering. */
  lemma {:induction false} SortFilter<T(!new)>(xs: seq<T>, le: (T, T) -> bool, p: T -> bool)
    requires Preorder(le)
    ensures Sort(Filter(xs, p), le) == Filter(Sort(xs, le), p)
  {
    if xs != [] {
      SortFilter(xs[1..], le, p);
      SortSorts(xs[1..], le);
      InsertFilter(xs[0], Sort(xs[1..], le), le, p);
      SortCons(xs, le, p);
    }
  }

  lemma SortCons<T(!new)>(xs: seq<T>, le: (T, T) -> bool, p: T -> bool)
    requires xs != []
    ensures Sort(Filter(xs, p), le) ==
            if p(xs[0]) then Insert(xs[0], Sort(Filter(xs[1..], p), le), le) else Sort(Filter(xs[1..], p), le)
  {
    var rest := Filter(xs[1..], p);
    if p(xs[0]) {
      assert ([xs[0]] + rest)[1..] == rest;
    } else {
      assert [] + rest == rest;
    }
  }

  /** The sequence without its element at `k`. */
  function Dropped<T>(xs: seq<T>, k: nat): (r: seq<T>)
    requires k < |xs|
    ensures |r| == |xs| - 1
  {
    xs[..k] + xs[k + 1..]
  }

  lemma RemoveAt<T>(xs: seq<T>, k: nat)
    requires k < |xs|
    ensures multiset(Dropped(xs, k)) == multiset(xs) - multiset{xs[k]}
  {
    assert xs == xs[..k] + [xs[k]] + xs[k + 1..];
  }

  /** Two arrangements of one multiset: the head of one is found in the other. */
  lemma MatchHead<T>(xs: seq<T>, ys: seq<T>) returns (k: nat)
    requires multiset(xs) == multiset(ys) && xs != []
    ensures k < |ys| && ys[k] == xs[0] && multiset(Dropped(xs, 0)) == multiset(Dropped(ys, k))
  {
    assert xs[0] in multiset(ys);
    k :| 0 <= k < |ys| && ys[k] == xs[0];
    RemoveAt(xs, 0);
    RemoveAt(ys, k);
  }

  lemma PullFront<T>(xs: seq<T>, i: nat, j: nat) returns (rest: seq<T>)
    requires i < j < |xs|
    ensures multiset([xs[i], xs[j]] + rest) == multiset(xs)
    ensures multiset([xs[j], xs[i]] + rest) == multiset(xs)
  {
    var a, b, c := xs[..i], xs[i + 1..j], xs[j + 1..];
    assert xs == a + [xs[i]] + b + [xs[j]] + c;
    rest := a + b + c;
    FiveParts(a, xs[i], b, xs[j], c);
  }

  lemma FiveParts<T>(a: seq<T>, x: T, b: seq<T>, y: T, c: seq<T>)
    ensures multiset([x, y] + (a + b + c)) == multiset(a + [x] + b + [y] + c)
    ensures multiset([y, x] + (a + b + c)) == multiset(a + [x] + b + [y] + c)
  {
    var m := multiset(a) + multiset{x} + multiset(b) + multiset{y} + multiset(c);
    assert multiset([x, y]) == multiset{x, y} && multiset([y, x]) == multiset{x, y};
    assert multiset(a + [x] + b + [y] + c) == m;
    assert multiset([x, y] + (a + b + c)) == m;
  }

  lemma RepeatedTwice<T>(s: seq<T>, i: nat, j: nat)
    requires i < j < |s| && s[i] == s[j]
    ensures multiset(s)[s[i]] >= 2
  {
    assert s == s[..j] + [s[j]] + s[j + 1..];
    assert s[i] in s[..j];
  }

  lemma MapRemoveAt<S, T>(xs: seq<S>, k: nat, x: S, f: S -> T)
    requires k < |xs| && xs[k] == x
    ensures multiset(Map(xs, f)) == multiset(Map(Dropped(xs, k), f)) + multiset{f(x)}
  {
    var ys := Map(xs, f);
    assert Map(Dropped(xs, k), f) == ys[..k] + ys[k + 1..];
    assert ys == ys[..k] + [ys[k]] + ys[k + 1..];
  }

  /** Mapping respects permutation. */
  lemma {:induction false} MapPermutes<S, T>(xs: seq<S>, ys: seq<S>, f: S -> T)
    requires multiset(xs) == multiset(ys)
    ensures multiset(Map(xs, f)) == multiset(Map(ys, f))
  {
    SameLength(xs, ys);
    if xs != [] {
      var k := MatchHead(xs, ys);
      MapPermutes(Dropped(xs, 0), Dropped(ys, k), f);
      MapRemoveAt(xs, 0, xs[0], f);
      MapRemoveAt(ys, k, xs[0], f);
    }
  }
}
