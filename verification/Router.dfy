/** The smart router (M5/app/router): condition trees, rule order and destinations. */
module Router {
  import opened Results
  import opened Orders

  /** A condition as loaded: a list, a node that may hold `all`, `any` or a field test, or something else. */
  datatype Condition =
    | Items(items: seq<Condition>)
    | Node(all: seq<Condition>, any: seq<Condition>, field: string, operator: string, value: string)
    | Unknown

  datatype Rule = Rule(
    id: string, priority: int, enabled: bool, tenant: Option<string>, when: Option<Condition>,
        destinations: seq<string>)

  /** What the router reads of an event: its tenant and the outcome of each field test. */
  datatype View = View(tenant: Option<string>, test: (string, string, string) -> bool)

  predicate Evaluate(v: View, c: Condition) {
    match c
    case Items(items) => forall i :: 0 <= i < |items| ==> Evaluate(v, items[i])
    case Node(all, any, field, operator, value) =>
      if all != [] then forall i :: 0 <= i < |all| ==> Evaluate(v, all[i])
      else if any != [] then exists i :: 0 <= i < |any| && Evaluate(v, any[i])
      else field != "" && operator != "" && v.test(field, operator, value)
    case Unknown => false
  }

  function All(items: seq<Condition>): Condition {
    Node(items, [], "", "", "")
  }

  function Any(items: seq<Condition>): Condition {
    Node([], items, "", "", "")
  }

  function Test(field: string, operator: string, value: string): Condition {
    Node([], [], field, operator, value)
  }

  lemma Split<T>(a: seq<T>, b: seq<T>, i: nat)
    requires i < |a + b|
    ensures (a + b)[i] == if i < |a| then a[i] else b[i - |a|]
  {
  }

  /** Lists and `all` are conjunctions. */
  lemma Conjunctions(v: View, a: seq<Condition>, b: seq<Condition>)
    requires a != [] && b != []
    ensures Evaluate(v, Items([])) && (Evaluate(v, Items(a + b)) <==> Evaluate(v, Items(a)) && Evaluate(v, Items(b)))
    ensures Evaluate(v, All(a + b)) <==> Evaluate(v, All(a)) && Evaluate(v, All(b))
  {
    assert forall i :: 0 <= i < |a| ==> (a + b)[i] == a[i];
    assert forall i :: 0 <= i < |b| ==> (a + b)[|a| + i] == b[i];
  }

  /** `any` is a disjunction. */
  lemma Disjunctions(v: View, a: seq<Condition>, b: seq<Condition>)
    requires a != [] && b != []
    ensures Evaluate(v, Any(a + b)) <==> Evaluate(v, Any(a)) || Evaluate(v, Any(b))
  {
    if i: nat :| i < |a| && Evaluate(v, a[i]) {
      Split(a, b, i);
    } else if i: nat :| i < |b| && Evaluate(v, b[i]) {
      Split(a, b, |a| + i);
    } else {
      forall i | 0 <= i < |a + b| ensures !Evaluate(v, (a + b)[i]) {
        Split(a, b, i);
      }
    }
  }

  /** A node uses only the first of its parts, and one part alone is that part. */
  lemma Nodes(v: View, a: seq<Condition>, c: Condition)
    requires a != []
    ensures Evaluate(v, All([c])) == Evaluate(v, Any([c])) == Evaluate(v, Items([c])) == Evaluate(v, c)
    ensures forall any, f, op, value :: Evaluate(v, Node(a, any, f, op, value)) == Evaluate(v, All(a))
    ensures forall f, op, value :: Evaluate(v, Node([], a, f, op, value)) == Evaluate(v, Any(a))
    ensures forall f, op, value ::
              Evaluate(v, Test(f, op, value)) <==> f != "" && op != "" && v.test(f, op, value)
    ensures !Evaluate(v, Unknown)
  {
    assert [c][0] == c;
  }

  predicate Matches(v: View, r: Rule) {
    && r.enabled
    && (r.tenant.Some? && r.tenant.value != "" ==> v.tenant == r.tenant)
    && (r.when.Some? ==> Evaluate(v, r.when.value))
  }

  // ---- rule order ----

  function RuleKey(r: Rule): seq<int> {
    [-r.priority] + CodePoints(r.id)
  }

  predicate RuleLe(a: Rule, b: Rule) {
    LexLe(RuleKey(a), RuleKey(b))
  }

  lemma RuleOrder()
    ensures Preorder(RuleLe)
  {
    forall a, b ensures RuleLe(a, b) || RuleLe(b, a) {
      LexTotal(RuleKey(a), RuleKey(b));
    }
    forall a, b, c | RuleLe(a, b) && RuleLe(b, c) ensures RuleLe(a, c) {
      LexTransitive(RuleKey(a), RuleKey(b), RuleKey(c));
    }
  }

  lemma RuleTies(a: Rule, b: Rule)
    requires RuleLe(a, b) && RuleLe(b, a)
    ensures a.priority == b.priority && a.id == b.id
  {
    LexAntisymmetric(RuleKey(a), RuleKey(b));
    assert RuleKey(a)[0] == RuleKey(b)[0];
    assert CodePoints(a.id) == RuleKey(a)[1..] && CodePoints(b.id) == RuleKey(b)[1..];
    CodePointsInjective(a.id, b.id);
  }

  lemma RuleLeMeans(a: Rule, b: Rule)
    ensures RuleLe(a, b) <==>
            a.priority > b.priority || (a.priority == b.priority && LexLe(CodePoints(a.id), CodePoints(b.id)))
  {
    assert RuleKey(a)[1..] == CodePoints(a.id) && RuleKey(b)[1..] == CodePoints(b.id);
  }

  function SameKey(r: Rule): Rule -> bool {
    (x: Rule) => x.priority == r.priority && x.id == r.id
  }

  /** Rules with one priority and id stay in load order. */
  lemma TiesStay(rules: seq<Rule>, r: Rule)
    ensures Filter(Sort(rules, RuleLe), SameKey(r)) == Filter(rules, SameKey(r))
  {
    forall x, y | SameKey(r)(x) && SameKey(r)(y) ensures RuleLe(x, y) {
      LexTotal(RuleKey(x), RuleKey(y));
    }
    SortStable(rules, RuleLe, SameKey(r));
  }

  // ---- order-preserving removal of duplicates ----

  /** Appends the elements of `xs` that are not there yet. */
  function AddNew(acc: seq<string>, xs: seq<string>): seq<string>
    decreases |xs|
  {
    if xs == [] then acc
    else AddNew(if xs[0] in acc then acc else acc + [xs[0]], xs[1..])
  }

  lemma {:induction false} AddNewAppend(acc: seq<string>, a: seq<string>, b: seq<string>)
    ensures AddNew(acc, a + b) == AddNew(AddNew(acc, a), b)
    decreases |a|
  {
    if a == [] {
      assert a + b == b;
    } else {
      assert (a + b)[1..] == a[1..] + b;
      AddNewAppend(if a[0] in acc then acc else acc + [a[0]], a[1..], b);
    }
  }

  function IndexOf(xs: seq<string>, x: string): (i: nat)
    requires x in xs
    ensures i < |xs| && xs[i] == x && forall k :: 0 <= k < i ==> xs[k] != x
  {
    if xs[0] == x then 0 else 1 + IndexOf(xs[1..], x)
  }

  /** The reference: `r` lists each element of `xs` once, in order of first occurrence. */
  ghost predicate FirstOccurrences(r: seq<string>, xs: seq<string>) {
    && (forall x :: x in r <==> x in xs)
    && (forall i, j :: 0 <= i < j < |r| ==> r[i] in xs && r[j] in xs && IndexOf(xs, r[i]) < IndexOf(xs, r[j]))
  }

  lemma {:induction false} IndexOfPrefix(xs: seq<string>, ys: seq<string>, x: string)
    requires x in xs
    ensures x in xs + ys && IndexOf(xs + ys, x) == IndexOf(xs, x)
  {
    assert (xs + ys)[0] == xs[0];
    if xs[0] != x {
      assert (xs + ys)[1..] == xs[1..] + ys;
      IndexOfPrefix(xs[1..], ys, x);
    }
  }

  lemma FirstOccurrencesSnoc(r: seq<string>, xs: seq<string>, x: string)
    requires FirstOccurrences(r, xs)
    ensures FirstOccurrences(if x in r then r else r + [x], xs + [x])
  {
    forall y | y in xs ensures IndexOf(xs + [x], y) == IndexOf(xs, y) {
      IndexOfPrefix(xs, [x], y);
    }
  }

  lemma ShiftHead(a: seq<string>, b: seq<string>)
    requires b != []
    ensures a + b == a + [b[0]] + b[1..]
  {
  }

  lemma {:induction false} AddNewKeepsFirst(acc: seq<string>, seen: seq<string>, xs: seq<string>)
    requires FirstOccurrences(acc, seen)
    ensures FirstOccurrences(AddNew(acc, xs), seen + xs)
    decreases |xs|
  {
    if xs == [] {
      assert seen + xs == seen;
    } else {
      var acc', seen', rest := if xs[0] in acc then acc else acc + [xs[0]], seen + [xs[0]], xs[1..];
      FirstOccurrencesSnoc(acc, seen, xs[0]);
      assert AddNew(acc, xs) == AddNew(acc', rest);
      ShiftHead(seen, xs);
      AddNewKeepsFirst(acc', seen', rest);
    }
  }

  // ---- routing ----

  function Concat(rules: seq<Rule>): seq<string> {
    if rules == [] then [] else rules[0].destinations + Concat(rules[1..])
  }

  lemma {:induction false} ConcatAppend(a: seq<Rule>, b: seq<Rule>)
    ensures Concat(a + b) == Concat(a) + Concat(b)
  {
    if a == [] {
      assert a + b == b;
    } else {
      assert (a + b)[1..] == a[1..] + b;
      ConcatAppend(a[1..], b);
      assert a[0].destinations + (Concat(a[1..]) + Concat(b)) == a[0].destinations + Concat(a[1..]) + Concat(b);
    }
  }

  lemma {:induction false} ConcatMembers(rules: seq<Rule>, d: string)
    ensures d in Concat(rules) <==> exists r :: r in rules && d in r.destinations
  {
    if rules != [] {
      ConcatMembers(rules[1..], d);
      assert forall r :: r in rules <==> r == rules[0] || r in rules[1..];
    }
  }

  function Matching(v: View): Rule -> bool {
    r => Matches(v, r)
  }

  /** The destinations for rules in the given order. */
  function Destinations(sorted: seq<Rule>, v: View): seq<string> {
    AddNew([], Concat(Filter(sorted, Matching(v))))
  }

  /** The destinations for rules loaded in any order. */
  function Routed(loaded: seq<Rule>, v: View): seq<string> {
    Destinations(Sort(loaded, RuleLe), v)
  }

  function Ids(rules: seq<Rule>): seq<string> {
    Map(rules, (r: Rule) => r.id)
  }

  lemma DestinationsSnoc(before: seq<Rule>, r: Rule, v: View)
    ensures Filter(before + [r], Matching(v)) == Filter(before, Matching(v)) + if Matches(v, r) then [r] else []
    ensures Destinations(before + [r], v) ==
            if Matches(v, r) then AddNew(Destinations(before, v), r.destinations) else Destinations(before, v)
  {
    FilterAppend(before, [r], Matching(v));
    assert [r][1..] == [];
    var kept := Filter(before, Matching(v));
    if Matches(v, r) {
      assert [r] + [] == [r];
      ConcatAppend(kept, [r]);
      assert Concat([r]) == r.destinations;
      AddNewAppend([], Concat(kept), r.destinations);
    } else {
      assert kept + [] == kept;
    }
  }

  class SmartRouter {
    var rules: seq<Rule>

    constructor (loaded: seq<Rule>)
      ensures rules == Sort(loaded, RuleLe)
    {
      rules := Sort(loaded, RuleLe);
    }

    /** Highest priority first, then by id; rules that tie keep their load order. */
    method SetRules(loaded: seq<Rule>)
      modifies this
      ensures rules == Sort(loaded, RuleLe)
      ensures SortedBy(rules, RuleLe) && multiset(rules) == multiset(loaded)
      ensures forall i, j :: 0 <= i < j < |rules| ==>
                rules[i].priority > rules[j].priority
                || (rules[i].priority == rules[j].priority && LexLe(CodePoints(rules[i].id), CodePoints(rules[j].id)))
      ensures forall r: Rule :: Filter(rules, SameKey(r)) == Filter(loaded, SameKey(r))
    {
      rules := Sort(loaded, RuleLe);
      RuleOrder();
      SortSorts(loaded, RuleLe);
      forall i, j | 0 <= i < j < |rules|
        ensures rules[i].priority > rules[j].priority
                || (rules[i].priority == rules[j].priority && LexLe(CodePoints(rules[i].id), CodePoints(rules[j].id)))
      {
        RuleLeMeans(rules[i], rules[j]);
      }
      forall r: Rule ensures Filter(rules, SameKey(r)) == Filter(loaded, SameKey(r)) {
        TiesStay(loaded, r);
      }
    }

    method Route(v: View) returns (destinations: seq<string>, matched: seq<string>)
      ensures destinations == Destinations(rules, v)
      ensures matched == Ids(Filter(rules, Matching(v)))
    {
      destinations, matched := [], [];
      for i := 0 to |rules|
        invariant destinations == Destinations(rules[..i], v)
        invariant matched == Ids(Filter(rules[..i], Matching(v)))
      {
        var rule := rules[i];
        assert rules[..i + 1] == rules[..i] + [rule];
        DestinationsSnoc(rules[..i], rule, v);
        if !rule.enabled {
          continue;
        }
        if rule.tenant.Some? && rule.tenant.value != "" && rule.tenant != v.tenant {
          continue;
        }
        var isMatch := rule.when.None? || Evaluate(v, rule.when.value);
        if isMatch {
          matched := matched + [rule.id];
          ghost var start := destinations;
          for j := 0 to |rule.destinations|
            invariant destinations == AddNew(start, rule.destinations[..j])
          {
            var d := rule.destinations[j];
            assert rule.destinations[..j + 1] == rule.destinations[..j] + [d];
            AddNewAppend(start, rule.destinations[..j], [d]);
            if d !in destinations {
              destinations := destinations + [d];
            }
          }
          assert rule.destinations[..|rule.destinations|] == rule.destinations;
        }
      }
      assert rules[..|rules|] == rules;
    }
  }

  /**
   Each destination of an enabled, tenant-aligned, matching rule appears once,
   in order of its first occurrence along the sorted rules, and no other does.
   */
  lemma RouteExactly(loaded: seq<Rule>, v: View)
    ensures FirstOccurrences(Routed(loaded, v), Concat(Filter(Sort(loaded, RuleLe), Matching(v))))
    ensures forall d :: d in Routed(loaded, v) <==>
              exists r ::
                && r in loaded && r.enabled && d in r.destinations
                && (r.tenant.None? || r.tenant == Some("") || r.tenant == v.tenant)
                && (r.when.None? || Evaluate(v, r.when.value))
    ensures SortedBy(Filter(Sort(loaded, RuleLe), Matching(v)), RuleLe)
  {
    var sorted := Sort(loaded, RuleLe);
    var matching := Filter(sorted, Matching(v));
    AddNewKeepsFirst([], [], Concat(matching));
    assert [] + Concat(matching) == Concat(matching);
    SortMembers(loaded, RuleLe);
    FilterMembers(sorted, Matching(v));
    forall d ensures d in Concat(matching) <==> exists r :: r in loaded && Matches(v, r) && d in r.destinations {
      ConcatMembers(matching, d);
    }
    RuleOrder();
    SortFilter(loaded, RuleLe, Matching(v));
    SortSorts(Filter(loaded, Matching(v)), RuleLe);
  }

  /** Rules with equal priority and id are the same rule. */
  ghost predicate DistinctKeys(rules: seq<Rule>) {
    forall a, b :: a in rules && b in rules && a.priority == b.priority && a.id == b.id ==> a == b
  }

  /** The order in which rules are loaded does not matter. */
  lemma LoadOrderImmaterial(a: seq<Rule>, b: seq<Rule>)
    requires multiset(a) == multiset(b) && DistinctKeys(a)
    ensures Sort(a, RuleLe) == Sort(b, RuleLe)
    ensures forall v :: Routed(a, v) == Routed(b, v)
  {
    RuleOrder();
    SortSorts(a, RuleLe);
    SortSorts(b, RuleLe);
    SortMembers(a, RuleLe);
    forall x, y | x in Sort(a, RuleLe) && y in Sort(a, RuleLe) && RuleLe(x, y) && RuleLe(y, x) ensures x == y {
      RuleTies(x, y);
    }
    SortedUnique(Sort(a, RuleLe), Sort(b, RuleLe), RuleLe);
  }

  /** Rules of one key in either order at the front show in the sorted rules. */
  lemma SwapShows(a: Rule, b: Rule, rest: seq<Rule>)
    requires a.priority == b.priority && a.id == b.id
    requires Sort([a, b] + rest, RuleLe) == Sort([b, a] + rest, RuleLe)
    ensures a == b
  {
    var p := SameKey(a);
    TiesStay([a, b] + rest, a);
    TiesStay([b, a] + rest, a);
    assert Filter([a, b] + rest, p)[0] == a && Filter([b, a] + rest, p)[0] == b;
  }

  ghost predicate OrderImmaterial(rules: seq<Rule>) {
    forall other :: multiset(other) == multiset(rules) ==> Sort(other, RuleLe) == Sort(rules, RuleLe)
  }

  lemma ImmaterialMeansDistinct(rules: seq<Rule>, i: nat, j: nat)
    requires OrderImmaterial(rules) && i < j < |rules|
    requires rules[i].priority == rules[j].priority && rules[i].id == rules[j].id
    ensures rules[i] == rules[j]
  {
    var rest := PullFront(rules, i, j);
    PermutedSort(rules, [rules[i], rules[j]] + rest);
    PermutedSort(rules, [rules[j], rules[i]] + rest);
    SwapShows(rules[i], rules[j], rest);
  }

  lemma PermutedSort(rules: seq<Rule>, other: seq<Rule>)
    requires OrderImmaterial(rules) && multiset(other) == multiset(rules)
    ensures Sort(other, RuleLe) == Sort(rules, RuleLe)
  {
  }

  /** Load order is immaterial to the sorted rules exactly when no two different rules share priority and id. */
  lemma LoadOrderExactly(rules: seq<Rule>)
    ensures OrderImmaterial(rules) <==> DistinctKeys(rules)
  {
    if DistinctKeys(rules) {
      forall other | multiset(other) == multiset(rules) ensures Sort(other, RuleLe) == Sort(rules, RuleLe) {
        LoadOrderImmaterial(rules, other);
      }
    }
    if OrderImmaterial(rules) {
      forall a, b | a in rules && b in rules && a.priority == b.priority && a.id == b.id ensures a == b {
        var i :| 0 <= i < |rules| && rules[i] == a;
        var j :| 0 <= j < |rules| && rules[j] == b;
        if i < j {
          ImmaterialMeansDistinct(rules, i, j);
        } else if j < i {
          ImmaterialMeansDistinct(rules, j, i);
        }
      }
    }
  }

  /** Two matching rules of one key with different first destinations make load order show in the destinations. */
  lemma TiesShowLoadOrder(a: Rule, b: Rule, v: View)
    requires a.priority == b.priority && a.id == b.id && Matches(v, a) && Matches(v, b)
    requires a.destinations != [] && b.destinations != [] && a.destinations[0] != b.destinations[0]
    ensures multiset([a, b]) == multiset([b, a]) && Routed([a, b], v) != Routed([b, a], v)
  {
    LexTotal(RuleKey(a), RuleKey(b));
    FirstOfTwo(a, b, v);
    FirstOfTwo(b, a, v);
  }

  lemma FirstOfTwo(a: Rule, b: Rule, v: View)
    requires RuleLe(a, b) && Matches(v, a) && a.destinations != []
    ensures Routed([a, b], v) != [] && Routed([a, b], v)[0] == a.destinations[0]
  {
    assert [a, b][1..] == [b] && [b][1..] == [];
    assert Sort([b], RuleLe) == [b];
    assert Sort([a, b], RuleLe) == [a, b];
    var xs := Concat(Filter([a, b], Matching(v)));
    assert Filter([a, b], Matching(v))[0] == a;
    assert xs[0] == a.destinations[0] && [] + [xs[0]] == [xs[0]];
    assert Routed([a, b], v) == AddNew([xs[0]], xs[1..]);
    AddNewKeeps([xs[0]], xs[1..]);
  }

  lemma {:induction false} AddNewKeeps(acc: seq<string>, xs: seq<string>)
    ensures acc <= AddNew(acc, xs)
    decreases |xs|
  {
    if xs != [] {
      AddNewKeeps(if xs[0] in acc then acc else acc + [xs[0]], xs[1..]);
    }
  }

  /** Adding a rule never removes a destination. */
  lemma AddingKeeps(loaded: seq<Rule>, k: nat, r: Rule, v: View, d: string)
    requires k <= |loaded| && d in Routed(loaded, v)
    ensures d in Routed(loaded[..k] + [r] + loaded[k..], v)
  {
    var more := loaded[..k] + [r] + loaded[k..];
    RouteExactly(loaded, v);
    RouteExactly(more, v);
    assert forall x :: x in loaded ==> x in more by {
      assert loaded == loaded[..k] + loaded[k..];
    }
  }

  lemma {:induction false} SortSnoc(rules: seq<Rule>, r: Rule)
    requires forall x :: x in rules ==> RuleLe(x, r)
    ensures Sort(rules + [r], RuleLe) == Sort(rules, RuleLe) + [r]
  {
    if rules == [] {
      assert [] + [r] == [r] && [r][1..] == [];
    } else {
      assert (rules + [r])[1..] == rules[1..] + [r];
      SortSnoc(rules[1..], r);
      InsertBefore(rules[0], Sort(rules[1..], RuleLe), r);
    }
  }

  lemma {:induction false} InsertBefore(x: Rule, ys: seq<Rule>, r: Rule)
    requires RuleLe(x, r)
    ensures Insert(x, ys + [r], RuleLe) == Insert(x, ys, RuleLe) + [r]
  {
    if ys == [] {
      assert [] + [r] == [r];
    } else if !RuleLe(x, ys[0]) {
      assert (ys + [r])[1..] == ys[1..] + [r];
      InsertBefore(x, ys[1..], r);
    }
  }

  /** A rule that sorts after all others only appends: earlier destinations keep their places. */
  lemma LastRuleAppends(loaded: seq<Rule>, r: Rule, v: View)
    requires forall x :: x in loaded ==> RuleLe(x, r)
    ensures Routed(loaded, v) <= Routed(loaded + [r], v)
  {
    SortSnoc(loaded, r);
    var sorted := Sort(loaded, RuleLe);
    FilterAppend(sorted, [r], Matching(v));
    ConcatAppend(Filter(sorted, Matching(v)), Filter([r], Matching(v)));
    AddNewAppend([], Concat(Filter(sorted, Matching(v))), Concat(Filter([r], Matching(v))));
    AddNewKeeps(Routed(loaded, v), Concat(Filter([r], Matching(v))));
  }
}
