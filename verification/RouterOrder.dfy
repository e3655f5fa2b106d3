/** Exactly when the order in which rules are loaded shows in an event's destinations. */
module RouterOrder {
  import opened Orders
  import opened Router

  // ---- destinations added to those already there ----

  lemma {:induction false} AddedAll(acc: seq<string>, xs: seq<string>, d: string)
    requires d in acc || d in xs
    ensures d in AddNew(acc, xs)
    decreases |xs|
  {
    if xs != [] {
      AddedAll(if xs[0] in acc then acc else acc + [xs[0]], xs[1..], d);
    }
  }

  lemma {:induction false} AddKnown(acc: seq<string>, xs: seq<string>)
    requires forall d :: d in xs ==> d in acc
    ensures AddNew(acc, xs) == acc
  {
    if xs != [] {
      AddKnown(acc, xs[1..]);
    }
  }

  /** Starting anywhere between `acc` and the result gives the same result. */
  lemma {:induction false} AddFromBetween(acc: seq<string>, mid: seq<string>, xs: seq<string>)
    requires acc <= mid <= AddNew(acc, xs)
    ensures AddNew(mid, xs) == AddNew(acc, xs)
    decreases |xs|
  {
    if xs != [] && mid != acc {
      var acc' := if xs[0] in acc then acc else acc + [xs[0]];
      AddNewKeeps(acc', xs[1..]);
      assert acc' <= mid;
      assert xs[0] in acc' && xs[0] in mid;
      AddFromBetween(acc', mid, xs[1..]);
    }
  }

  // ---- rules of one key ----

  predicate Comparable(a: seq<string>, b: seq<string>) {
    a <= b || b <= a
  }

  /** Starting from `acc`, one of any two rules adds a prefix of what the other adds. */
  ghost predicate Chain(acc: seq<string>, rules: seq<Rule>) {
    forall a, b :: a in rules && b in rules ==>
      Comparable(AddNew(acc, a.destinations), AddNew(acc, b.destinations))
  }

  /** What a chain adds is what its longest member adds. */
  ghost predicate Longest(acc: seq<string>, rules: seq<Rule>, result: seq<string>) {
    && (exists a :: a in rules && result == AddNew(acc, a.destinations))
    && (forall a :: a in rules ==> AddNew(acc, a.destinations) <= result)
  }

  lemma ChainNext(acc: seq<string>, rules: seq<Rule>, z: Rule, result: seq<string>)
    requires Chain(acc, rules + [z]) && Longest(acc, rules, result)
    ensures Longest(acc, rules + [z], AddNew(result, z.destinations))
  {
    var more, added := rules + [z], AddNew(acc, z.destinations);
    var a :| a in rules && result == AddNew(acc, a.destinations);
    assert a in more && z in more;
    AddNewKeeps(acc, a.destinations);
    if added <= result {
      forall d | d in z.destinations ensures d in result {
        AddedAll(acc, z.destinations, d);
      }
      AddKnown(result, z.destinations);
      assert AddNew(result, z.destinations) == AddNew(acc, a.destinations);
    } else {
      AddFromBetween(acc, result, z.destinations);
      assert AddNew(result, z.destinations) == added;
    }
  }

  lemma {:induction false} ChainAdds(acc: seq<string>, rules: seq<Rule>)
    requires Chain(acc, rules) && rules != []
    ensures Longest(acc, rules, AddNew(acc, Concat(rules)))
    decreases |rules|
  {
    var front, z := rules[..|rules| - 1], rules[|rules| - 1];
    assert rules == front + [z];
    ConcatAppend(front, [z]);
    assert [z][1..] == [] && Concat([z]) == z.destinations;
    AddNewAppend(acc, Concat(front), z.destinations);
    if front == [] {
      assert AddNew(acc, Concat(rules)) == AddNew(acc, z.destinations);
    } else {
      assert forall a :: a in front ==> a in rules;
      ChainAdds(acc, front);
      ChainNext(acc, front, z, AddNew(acc, Concat(front)));
    }
  }

  lemma LongestIsUnique(acc: seq<string>, a: seq<Rule>, b: seq<Rule>, x: seq<string>, y: seq<string>)
    requires multiset(a) == multiset(b) && Longest(acc, a, x) && Longest(acc, b, y)
    ensures x == y
  {
    var p :| p in a && x == AddNew(acc, p.destinations);
    var q :| q in b && y == AddNew(acc, q.destinations);
    assert p in multiset(b) && q in multiset(a);
    assert p in b && q in a;
  }

  /** In a chain, the order of the rules does not matter. */
  lemma ChainIgnoresOrder(acc: seq<string>, a: seq<Rule>, b: seq<Rule>)
    requires multiset(a) == multiset(b) && Chain(acc, a)
    ensures AddNew(acc, Concat(a)) == AddNew(acc, Concat(b))
  {
    SameLength(a, b);
    if a != [] {
      assert forall r :: r in b <==> r in multiset(b);
      assert forall r :: r in a <==> r in multiset(a);
      ChainAdds(acc, a);
      ChainAdds(acc, b);
      LongestIsUnique(acc, a, b, AddNew(acc, Concat(a)), AddNew(acc, Concat(b)));
    }
  }

  // ---- before, with and after a key ----

  function Before(r: Rule): Rule -> bool {
    (x: Rule) => !RuleLe(r, x)
  }

  function Beyond(r: Rule): Rule -> bool {
    (x: Rule) => !RuleLe(x, r)
  }

  lemma Trichotomy(x: Rule, r: Rule)
    ensures SameKey(r)(x) <==> RuleLe(x, r) && RuleLe(r, x)
    ensures !(Before(r)(x) && Beyond(r)(x))
  {
    LexTotal(RuleKey(x), RuleKey(r));
    if RuleLe(x, r) && RuleLe(r, x) {
      RuleTies(x, r);
    }
    assert SameKey(r)(x) ==> RuleKey(x) == RuleKey(r);
  }

  /** Sorted rules are those before a key, those with it, and those beyond it. */
  lemma {:induction false} SortedSplit(xs: seq<Rule>, r: Rule)
    requires SortedBy(xs, RuleLe)
    ensures xs == Filter(xs, Before(r)) + (Filter(xs, SameKey(r)) + Filter(xs, Beyond(r)))
  {
    if xs != [] {
      var x, rest := xs[0], xs[1..];
      assert xs == [x] + rest;
      SortedSplit(rest, r);
      Trichotomy(x, r);
      if !Before(r)(x) {
        NoneBefore(x, rest, r);
        if !SameKey(r)(x) {
          NoneTied(x, rest, r);
        }
      }
      SplitCons(x, rest, r);
    }
  }

  lemma FilterCons(x: Rule, rest: seq<Rule>, p: Rule -> bool)
    ensures Filter([x] + rest, p) == (if p(x) then [x] else []) + Filter(rest, p)
  {
    assert ([x] + rest)[1..] == rest;
  }

  lemma SplitCons(x: Rule, rest: seq<Rule>, r: Rule)
    requires rest == Filter(rest, Before(r)) + (Filter(rest, SameKey(r)) + Filter(rest, Beyond(r)))
    requires !Before(r)(x) ==> Filter(rest, Before(r)) == []
    requires !Before(r)(x) && !SameKey(r)(x) ==> Filter(rest, SameKey(r)) == []
    ensures var xs := [x] + rest;
            xs == Filter(xs, Before(r)) + (Filter(xs, SameKey(r)) + Filter(xs, Beyond(r)))
  {
    Trichotomy(x, r);
    FilterCons(x, rest, Before(r));
    FilterCons(x, rest, SameKey(r));
    FilterCons(x, rest, Beyond(r));
    Joined(x, rest, Filter(rest, Before(r)), Filter(rest, SameKey(r)), Filter(rest, Beyond(r)),
           Before(r)(x), SameKey(r)(x));
  }

  lemma Joined(x: Rule, rest: seq<Rule>, a: seq<Rule>, b: seq<Rule>, c: seq<Rule>, inA: bool, inB: bool)
    requires rest == a + (b + c) && (!inA ==> a == []) && (!inA && !inB ==> b == []) && !(inA && inB)
    ensures [x] + rest ==
            (if inA then [x] else []) + a + ((if inB then [x] else []) + b + ((if !inA && !inB then [x] else []) + c))
  {
  }

  lemma NoneBefore(x: Rule, rest: seq<Rule>, r: Rule)
    requires SortedBy([x] + rest, RuleLe) && !Before(r)(x)
    ensures Filter(rest, Before(r)) == []
  {
    forall y | y in rest ensures !Before(r)(y) {
      var i :| 0 <= i < |rest| && rest[i] == y;
      assert RuleLe(([x] + rest)[0], ([x] + rest)[i + 1]);
      LexTransitive(RuleKey(r), RuleKey(x), RuleKey(y));
    }
    FilterNone(rest, Before(r));
  }

  lemma NoneTied(x: Rule, rest: seq<Rule>, r: Rule)
    requires SortedBy([x] + rest, RuleLe) && !Before(r)(x) && !SameKey(r)(x)
    ensures Filter(rest, SameKey(r)) == []
  {
    Trichotomy(x, r);
    forall y | y in rest ensures !SameKey(r)(y) {
      var i :| 0 <= i < |rest| && rest[i] == y;
      assert RuleLe(([x] + rest)[0], ([x] + rest)[i + 1]);
      Trichotomy(y, r);
      if RuleLe(y, r) {
        LexTransitive(RuleKey(x), RuleKey(y), RuleKey(r));
      }
    }
    FilterNone(rest, SameKey(r));
  }

  /** The destinations of the rules that sort before `r`. */
  function Prior(rules: seq<Rule>, r: Rule, v: View): seq<string> {
    Routed(Filter(rules, Before(r)), v)
  }

  /** The matching rules of the key of `r`, in load order. */
  function Tied(rules: seq<Rule>, r: Rule, v: View): seq<Rule> {
    Filter(Filter(rules, SameKey(r)), Matching(v))
  }

  function Later(rules: seq<Rule>, r: Rule, v: View): seq<Rule> {
    Filter(Filter(Sort(rules, RuleLe), Beyond(r)), Matching(v))
  }

  lemma DestinationsAppend(a: seq<Rule>, b: seq<Rule>, v: View)
    ensures Destinations(a + b, v) == AddNew(Destinations(a, v), Concat(Filter(b, Matching(v))))
  {
    FilterAppend(a, b, Matching(v));
    ConcatAppend(Filter(a, Matching(v)), Filter(b, Matching(v)));
    AddNewAppend([], Concat(Filter(a, Matching(v))), Concat(Filter(b, Matching(v))));
  }

  /** Routing, split at one key. */
  lemma RoutedAt(rules: seq<Rule>, r: Rule, v: View)
    ensures Routed(rules, v) ==
            AddNew(AddNew(Prior(rules, r, v), Concat(Tied(rules, r, v))), Concat(Later(rules, r, v)))
  {
    var sorted := Sort(rules, RuleLe);
    RuleOrder();
    SortSorts(rules, RuleLe);
    SortedSplit(sorted, r);
    SortFilter(rules, RuleLe, Before(r));
    TiesStay(rules, r);
    var hi, tied, beyond := Filter(sorted, Before(r)), Filter(sorted, SameKey(r)), Filter(sorted, Beyond(r));
    assert sorted == hi + tied + beyond;
    DestinationsAppend(hi + tied, beyond, v);
    DestinationsAppend(hi, tied, v);
  }

  // ---- the theorem ----

  /** Of any two matching rules of one key, one adds a prefix of what the other adds to the destinations before them. */
  ghost predicate TiesAgree(rules: seq<Rule>, v: View) {
    forall r :: r in rules ==> Chain(Prior(rules, r, v), Tied(rules, r, v))
  }

  predicate Reordered(rules: seq<Rule>, other: seq<Rule>) {
    multiset(other) == multiset(rules)
  }

  ghost predicate DestinationsImmaterial(rules: seq<Rule>, v: View) {
    forall other {:trigger Reordered(rules, other)} :: Reordered(rules, other) ==> Routed(other, v) == Routed(rules, v)
  }

  lemma BeforeBefore(rules: seq<Rule>, r: Rule, a: Rule)
    requires Before(r)(a)
    ensures Filter(Filter(rules, Before(r)), Before(a)) == Filter(rules, Before(a))
    ensures Filter(Filter(rules, Before(r)), SameKey(a)) == Filter(rules, SameKey(a))
  {
    LexTotal(RuleKey(a), RuleKey(r));
    forall x ensures Before(a)(x) <==> Before(r)(x) && Before(a)(x) {
      if Before(a)(x) && RuleLe(r, x) {
        LexTransitive(RuleKey(a), RuleKey(r), RuleKey(x));
      }
    }
    FilterTwice(rules, Before(r), Before(a), Before(a));
    forall x ensures SameKey(a)(x) <==> Before(r)(x) && SameKey(a)(x) {
      if SameKey(a)(x) {
        assert RuleKey(x) == RuleKey(a);
      }
    }
    FilterTwice(rules, Before(r), SameKey(a), SameKey(a));
  }

  lemma AgreeBefore(rules: seq<Rule>, r: Rule, v: View)
    requires TiesAgree(rules, v)
    ensures TiesAgree(Filter(rules, Before(r)), v)
  {
    FilterMembers(rules, Before(r));
    forall a | a in Filter(rules, Before(r))
      ensures Chain(Prior(Filter(rules, Before(r)), a, v), Tied(Filter(rules, Before(r)), a, v))
    {
      BeforeBefore(rules, r, a);
      assert a in rules;
    }
  }

  /** Some rule sorts last. */
  lemma LastRule(rules: seq<Rule>) returns (r: Rule)
    requires rules != []
    ensures r in rules && forall x :: x in rules ==> RuleLe(x, r)
  {
    var sorted := Sort(rules, RuleLe);
    RuleOrder();
    SortSorts(rules, RuleLe);
    SortMembers(rules, RuleLe);
    r := sorted[|sorted| - 1];
    forall x | x in rules ensures RuleLe(x, r) {
      var i :| 0 <= i < |sorted| && sorted[i] == x;
      LexTotal(RuleKey(r), RuleKey(r));
    }
  }

  lemma NothingLater(rules: seq<Rule>, r: Rule, v: View)
    requires forall x :: x in rules ==> RuleLe(x, r)
    ensures Later(rules, r, v) == []
  {
    SortMembers(rules, RuleLe);
    FilterNone(Sort(rules, RuleLe), Beyond(r));
  }

  lemma {:induction false} FilterShrinks(rules: seq<Rule>, p: Rule -> bool, r: Rule)
    requires r in rules && !p(r)
    ensures |Filter(rules, p)| < |rules|
  {
    FilterSize(rules[1..], p);
    if r != rules[0] {
      FilterShrinks(rules[1..], p, r);
    }
  }

  lemma {:induction false} FilterSize(rules: seq<Rule>, p: Rule -> bool)
    ensures |Filter(rules, p)| <= |rules|
  {
    if rules != [] {
      FilterSize(rules[1..], p);
    }
  }

  lemma {:induction false} AgreementIgnoresOrder(rules: seq<Rule>, other: seq<Rule>, v: View)
    requires multiset(other) == multiset(rules) && TiesAgree(rules, v)
    ensures Routed(other, v) == Routed(rules, v)
    decreases |rules|
  {
    SameLength(rules, other);
    if rules != [] {
      var r := LastRule(rules);
      assert forall x :: x in other <==> x in multiset(other);
      assert forall x :: x in rules <==> x in multiset(rules);
      LexTotal(RuleKey(r), RuleKey(r));
      FilterShrinks(rules, Before(r), r);
      FilterPermutes(rules, other, Before(r));
      AgreeBefore(rules, r, v);
      AgreementIgnoresOrder(Filter(rules, Before(r)), Filter(other, Before(r)), v);
      FilterPermutes(rules, other, SameKey(r));
      FilterPermutes(Filter(rules, SameKey(r)), Filter(other, SameKey(r)), Matching(v));
      ChainIgnoresOrder(Prior(rules, r, v), Tied(rules, r, v), Tied(other, r, v));
      NothingLater(rules, r, v);
      NothingLater(other, r, v);
      RoutedAt(rules, r, v);
      RoutedAt(other, r, v);
    }
  }

  // ---- and the other way round ----

  /** What the first of the tied rules adds starts what comes of the whole routing from its key on. */
  lemma FirstTiedShows(rules: seq<Rule>, r: Rule, v: View)
    requires Tied(rules, r, v) != []
    ensures AddNew(Prior(rules, r, v), Tied(rules, r, v)[0].destinations) <= Routed(rules, v)
  {
    var tied, prior := Tied(rules, r, v), Prior(rules, r, v);
    RoutedAt(rules, r, v);
    AddNewAppend(prior, tied[0].destinations, Concat(tied[1..]));
    AddNewKeeps(AddNew(prior, tied[0].destinations), Concat(tied[1..]));
    AddNewKeeps(AddNew(prior, Concat(tied)), Concat(Later(rules, r, v)));
  }

  lemma FilterSkip(a: seq<Rule>, x: Rule, rest: seq<Rule>, p: Rule -> bool)
    requires !p(x)
    ensures Filter(a + ([x] + rest), p) == Filter(a + rest, p)
  {
    FilterAppend(a, [x] + rest, p);
    FilterAppend(a, rest, p);
    FilterCons(x, rest, p);
    assert [] + Filter(rest, p) == Filter(rest, p);
  }

  /** Moving two tied rules to the front leaves the rules before them as they are. */
  lemma PulledPrior(a: seq<Rule>, x: Rule, b: seq<Rule>, y: Rule, c: seq<Rule>, first: Rule, second: Rule)
    requires SameKey(x)(y) && (first, second) in {(x, y), (y, x)}
    ensures Filter([first, second] + (a + b + c), Before(x)) == Filter(a + [x] + b + [y] + c, Before(x))
  {
    var p := Before(x);
    Trichotomy(x, x);
    Trichotomy(y, x);
    FilterSkip([], first, [second] + (a + b + c), p);
    FilterSkip([], second, a + b + c, p);
    assert [first, second] + (a + b + c) == [] + ([first] + ([second] + (a + b + c)));
    assert [] + ([second] + (a + b + c)) == [second] + (a + b + c) && [] + (a + b + c) == a + b + c;
    FilterSkip(a, x, b + ([y] + c), p);
    FilterSkip(a + b, y, c, p);
    Regroup(a, x, b, y, c);
  }

  lemma Regroup(a: seq<Rule>, x: Rule, b: seq<Rule>, y: Rule, c: seq<Rule>)
    ensures a + [x] + b + [y] + c == a + ([x] + (b + ([y] + c)))
    ensures a + (b + ([y] + c)) == a + b + ([y] + c)
  {
  }

  lemma PulledTied(first: Rule, second: Rule, rest: seq<Rule>, r: Rule, v: View)
    requires SameKey(r)(first) && Matches(v, first)
    ensures Tied([first, second] + rest, r, v) != [] && Tied([first, second] + rest, r, v)[0] == first
  {
    var all := [first, second] + rest;
    assert all[0] == first;
    assert Filter(all, SameKey(r))[0] == first;
  }

  /** Pulled to the front, a tied rule starts what comes of the routing from its key on. */
  lemma PulledShows(rules: seq<Rule>, g: seq<Rule>, x: Rule, first: Rule, v: View)
    requires DestinationsImmaterial(rules, v) && multiset(g) == multiset(rules)
    requires Filter(g, Before(x)) == Filter(rules, Before(x))
    requires Tied(g, x, v) != [] && Tied(g, x, v)[0] == first
    ensures AddNew(Prior(rules, x, v), first.destinations) <= Routed(rules, v)
  {
    FirstTiedShows(g, x, v);
    PermutedRouted(rules, g, v);
  }

  lemma ImmaterialMeansComparable(rules: seq<Rule>, i: nat, j: nat, v: View)
    requires DestinationsImmaterial(rules, v) && i < j < |rules|
    requires SameKey(rules[i])(rules[j]) && Matches(v, rules[i]) && Matches(v, rules[j])
    ensures var prior := Prior(rules, rules[i], v);
            Comparable(AddNew(prior, rules[i].destinations), AddNew(prior, rules[j].destinations))
  {
    var a, x, b, y, c := rules[..i], rules[i], rules[i + 1..j], rules[j], rules[j + 1..];
    assert rules == a + [x] + b + [y] + c;
    PulledAgree(rules, a, x, b, y, c, v);
  }

  lemma PulledAgree(rules: seq<Rule>, a: seq<Rule>, x: Rule, b: seq<Rule>, y: Rule, c: seq<Rule>, v: View)
    requires DestinationsImmaterial(rules, v) && rules == a + [x] + b + [y] + c
    requires SameKey(x)(y) && Matches(v, x) && Matches(v, y)
    ensures Comparable(AddNew(Prior(rules, x, v), x.destinations), AddNew(Prior(rules, x, v), y.destinations))
  {
    var rest := a + b + c;
    FiveParts(a, x, b, y, c);
    PulledPrior(a, x, b, y, c, x, y);
    PulledPrior(a, x, b, y, c, y, x);
    PulledTied(x, y, rest, x, v);
    PulledTied(y, x, rest, x, v);
    PulledShows(rules, [x, y] + rest, x, x, v);
    PulledShows(rules, [y, x] + rest, x, y, v);
    BothStart(AddNew(Prior(rules, x, v), x.destinations), AddNew(Prior(rules, x, v), y.destinations), Routed(rules, v));
  }

  lemma PermutedRouted(rules: seq<Rule>, other: seq<Rule>, v: View)
    requires DestinationsImmaterial(rules, v) && multiset(other) == multiset(rules)
    ensures Routed(other, v) == Routed(rules, v)
  {
    assert Reordered(rules, other);
  }

  lemma BothStart(a: seq<string>, b: seq<string>, c: seq<string>)
    requires a <= c && b <= c
    ensures Comparable(a, b)
  {
  }

  /** The rules before a key are the same for all rules of the key. */
  lemma SamePrior(rules: seq<Rule>, r: Rule, x: Rule, v: View)
    requires SameKey(r)(x)
    ensures Prior(rules, x, v) == Prior(rules, r, v)
  {
    assert RuleKey(x) == RuleKey(r);
    FilterAgree(rules, Before(x), Before(r));
  }

  lemma TiedPair(rules: seq<Rule>, i: nat, j: nat, r: Rule, a: Rule, b: Rule, v: View)
    requires DestinationsImmaterial(rules, v) && i < j < |rules| && rules[i] == a && rules[j] == b
    requires SameKey(r)(a) && SameKey(r)(b) && Matches(v, a) && Matches(v, b)
    ensures Comparable(AddNew(Prior(rules, r, v), a.destinations), AddNew(Prior(rules, r, v), b.destinations))
  {
    SamePrior(rules, r, a, v);
    ImmaterialMeansComparable(rules, i, j, v);
  }

  lemma TiedAreComparable(rules: seq<Rule>, r: Rule, a: Rule, b: Rule, v: View)
    requires DestinationsImmaterial(rules, v) && a in rules && b in rules
    requires SameKey(r)(a) && SameKey(r)(b) && Matches(v, a) && Matches(v, b)
    ensures Comparable(AddNew(Prior(rules, r, v), a.destinations), AddNew(Prior(rules, r, v), b.destinations))
  {
    var i :| 0 <= i < |rules| && rules[i] == a;
    var j :| 0 <= j < |rules| && rules[j] == b;
    if i < j {
      TiedPair(rules, i, j, r, a, b, v);
    } else if j < i {
      TiedPair(rules, j, i, r, b, a, v);
    }
  }

  lemma TiedMembers(rules: seq<Rule>, r: Rule, v: View)
    ensures forall a :: a in Tied(rules, r, v) ==> a in rules && SameKey(r)(a) && Matches(v, a)
  {
    FilterMembers(rules, SameKey(r));
    FilterMembers(Filter(rules, SameKey(r)), Matching(v));
  }

  lemma ImmaterialMeansAgree(rules: seq<Rule>, v: View)
    requires DestinationsImmaterial(rules, v)
    ensures TiesAgree(rules, v)
  {
    forall r | r in rules ensures Chain(Prior(rules, r, v), Tied(rules, r, v)) {
      TiedMembers(rules, r, v);
      forall a, b | a in Tied(rules, r, v) && b in Tied(rules, r, v)
        ensures Comparable(AddNew(Prior(rules, r, v), a.destinations), AddNew(Prior(rules, r, v), b.destinations))
      {
        TiedAreComparable(rules, r, a, b, v);
      }
    }
  }

  /**
   The order in which rules are loaded is immaterial to an event's destinations
   exactly when, of any two matching rules of one key, one adds a prefix of what
   the other adds to the destinations of the rules before them.
   */
  lemma DestinationsExactly(rules: seq<Rule>, v: View)
    ensures DestinationsImmaterial(rules, v) <==> TiesAgree(rules, v)
  {
    if TiesAgree(rules, v) {
      forall other | Reordered(rules, other) ensures Routed(other, v) == Routed(rules, v) {
        AgreementIgnoresOrder(rules, other, v);
      }
    }
    if DestinationsImmaterial(rules, v) {
      ImmaterialMeansAgree(rules, v);
    }
  }
}
