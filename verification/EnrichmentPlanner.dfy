/**
 Planning (M4/app/enrichment/planner.py, precedence.py, rules.py): which
 providers run for an event, and in which order.
 */
module EnrichmentPlanner {
  import opened Orders
  import opened EnrichmentModel

  /** Oracles: does a rule condition hold of the event; does a provider apply to it. */
  datatype Oracles = Oracles(holds: (Event, string) -> bool, canEnrich: (Provider, Event, string) -> bool)

  predicate InScope(scopes: seq<string>, tenant: string) {
    "*" in scopes || tenant in scopes
  }

  predicate Triggers(r: Rule, e: Event, tenant: string, o: Oracles) {
    r.enabled && InScope(r.tenantScope, tenant)
    && forall i :: 0 <= i < |r.conditions| ==> o.holds(e, r.conditions[i])
  }

  /** The sort key: configured priority, the provider's own, then its id. */
  function SortKey(p: Provider, c: Config): seq<int> {
    [if p.id in c.priorities then c.priorities[p.id] else 100, p.priority] + CodePoints(p.id)
  }

  predicate Precedes(p: Provider, q: Provider, c: Config) {
    LexLe(SortKey(p, c), SortKey(q, c))
  }

  function Precedence(c: Config): (Provider, Provider) -> bool {
    (p: Provider, q: Provider) => Precedes(p, q, c)
  }

  lemma PrecedenceIsPreorder(c: Config)
    ensures Preorder(Precedence(c))
  {
    var le := Precedence(c);
    forall p, q ensures le(p, q) || le(q, p) {
      LexTotal(SortKey(p, c), SortKey(q, c));
    }
    forall p, q, r | le(p, q) && le(q, r) ensures le(p, r) {
      LexTransitive(SortKey(p, c), SortKey(q, c), SortKey(r, c));
    }
  }

  /** The lower configured priority (100 if none is) goes first, then the lower own one, then the lesser id. */
  ghost predicate GoesFirst(p: Provider, q: Provider, c: Config) {
    var a := if p.id in c.priorities then c.priorities[p.id] else 100;
    var b := if q.id in c.priorities then c.priorities[q.id] else 100;
    || a < b
    || (a == b && p.priority < q.priority)
    || (a == b && p.priority == q.priority
        && exists k: nat :: FirstDifference(CodePoints(p.id), CodePoints(q.id), k))
  }

  lemma PrecedesMeans(p: Provider, q: Provider, c: Config)
    ensures Precedes(p, q, c) <==> GoesFirst(p, q, c)
  {
    var x, y := SortKey(p, c), SortKey(q, c);
    var u, v := x[1..], y[1..];
    assert LexLe(x, y) <==> x[0] < y[0] || (x[0] == y[0] && LexLe(u, v));
    assert LexLe(u, v) <==> u[0] < v[0] || (u[0] == v[0] && LexLe(u[1..], v[1..]));
    assert u[1..] == CodePoints(p.id) && v[1..] == CodePoints(q.id);
    LexLeExactly(CodePoints(p.id), CodePoints(q.id));
  }

  /** Only providers with one id tie. */
  lemma TiesShareId(p: Provider, q: Provider, c: Config)
    requires Precedes(p, q, c) && Precedes(q, p, c)
    ensures p.id == q.id
  {
    LexAntisymmetric(SortKey(p, c), SortKey(q, c));
    assert CodePoints(p.id) == SortKey(p, c)[2..] && CodePoints(q.id) == SortKey(q, c)[2..];
    CodePointsInjective(p.id, q.id);
  }

  // ---- the plan ----

  predicate Targeted(c: Config, e: Event, tenant: string, o: Oracles, id: string) {
    exists i :: 0 <= i < |c.rules| && Triggers(c.rules[i], e, tenant, o) && id in c.rules[i].providers
  }

  predicate AnyRule(c: Config) {
    exists i :: 0 <= i < |c.rules| && c.rules[i].enabled
  }

  predicate Eligible(c: Config, e: Event, tenant: string, o: Oracles, p: Provider) {
    (AnyRule(c) ==> Targeted(c, e, tenant, o, p.id)) && o.canEnrich(p, e, tenant)
  }

  function Eligibility(c: Config, e: Event, tenant: string, o: Oracles): Provider -> bool {
    p => Eligible(c, e, tenant, o, p)
  }

  /** The registered ones among the given ids, in order. */
  function Instances(ids: seq<string>, reg: Registry): (r: seq<Provider>)
    ensures forall p :: p in r <==> exists id :: id in ids && id in reg && reg[id] == p
  {
    if ids == [] then []
    else if ids[0] in reg then
      assert ids == [ids[0]] + ids[1..];
      [reg[ids[0]]] + Instances(ids[1..], reg)
    else
      assert ids == [ids[0]] + ids[1..];
      Instances(ids[1..], reg)
  }

  function Plan(reg: Registry, c: Config, e: Event, tenant: string, o: Oracles): seq<Provider> {
    if !InScope(c.tenantScopes, tenant) then []
    else Sort(Filter(Instances(c.enabledProviders, reg), Eligibility(c, e, tenant, o)), Precedence(c))
  }

  lemma InstancesSnoc(ids: seq<string>, id: string, reg: Registry)
    ensures Instances(ids + [id], reg) == Instances(ids, reg) + if id in reg then [reg[id]] else []
  {
    if ids != [] {
      assert (ids + [id])[1..] == ids[1..] + [id];
      InstancesSnoc(ids[1..], id, reg);
    }
  }

  method FindInstances(ids: seq<string>, reg: Registry) returns (found: seq<Provider>)
    ensures found == Instances(ids, reg)
  {
    found := [];
    for i := 0 to |ids|
      invariant found == Instances(ids[..i], reg)
    {
      assert ids[..i + 1] == ids[..i] + [ids[i]];
      InstancesSnoc(ids[..i], ids[i], reg);
      if ids[i] in reg {
        found := found + [reg[ids[i]]];
      }
    }
    assert ids[..|ids|] == ids;
  }

  method TargetedIds(c: Config, e: Event, tenant: string, o: Oracles) returns (any: bool, ids: set<string>)
    ensures any <==> AnyRule(c)
    ensures forall id :: id in ids <==> Targeted(c, e, tenant, o, id)
  {
    any, ids := false, {};
    for i := 0 to |c.rules|
      invariant any <==> exists j :: 0 <= j < i && c.rules[j].enabled
      invariant forall id :: id in ids <==>
                  exists j :: 0 <= j < i && Triggers(c.rules[j], e, tenant, o) && id in c.rules[j].providers
    {
      if c.rules[i].enabled {
        any := true;
        if Triggers(c.rules[i], e, tenant, o) {
          ids := ids + set id | id in c.rules[i].providers;
        }
      }
    }
  }

  method PlanExecution(reg: Registry, c: Config, e: Event, tenant: string, o: Oracles) returns (plan: seq<Provider>)
    ensures plan == Plan(reg, c, e, tenant, o)
  {
    if "*" !in c.tenantScopes && tenant !in c.tenantScopes {
      return [];
    }
    var enabled := FindInstances(c.enabledProviders, reg);
    var any, targets := TargetedIds(c, e, tenant, o);
    var candidates := [];
    for i := 0 to |enabled|
      invariant candidates == Filter(enabled[..i], Eligibility(c, e, tenant, o))
    {
      var p := enabled[i];
      assert enabled[..i + 1] == enabled[..i] + [p];
      FilterAppend(enabled[..i], [p], Eligibility(c, e, tenant, o));
      if !(any && p.id !in targets) && o.canEnrich(p, e, tenant) {
        candidates := candidates + [p];
      }
    }
    assert enabled[..|enabled|] == enabled;
    plan := Sort(candidates, Precedence(c));
  }

  /** An enabled rule for the tenant names the provider, and all its conditions hold. */
  predicate Targets(r: Rule, p: Provider, e: Event, tenant: string, o: Oracles) {
    && r.enabled && p.id in r.providers && ("*" in r.tenantScope || tenant in r.tenantScope)
    && forall condition :: condition in r.conditions ==> o.holds(e, condition)
  }

  /** The provider applies to the event, and if any rule is enabled, one of them targets it. */
  ghost predicate Chosen(c: Config, e: Event, tenant: string, o: Oracles, p: Provider) {
    && ((exists r :: r in c.rules && r.enabled) ==> exists r :: r in c.rules && Targets(r, p, e, tenant, o))
    && o.canEnrich(p, e, tenant)
  }

  lemma ChosenIsEligible(c: Config, e: Event, tenant: string, o: Oracles, p: Provider)
    ensures Eligible(c, e, tenant, o, p) <==> Chosen(c, e, tenant, o, p)
  {
    forall i | 0 <= i < |c.rules|
      ensures Targets(c.rules[i], p, e, tenant, o) <==>
              Triggers(c.rules[i], e, tenant, o) && p.id in c.rules[i].providers
    {
      var r := c.rules[i];
      assert (forall condition :: condition in r.conditions ==> o.holds(e, condition)) <==>
             forall j :: 0 <= j < |r.conditions| ==> o.holds(e, r.conditions[j]);
    }
  }

  /** Who runs, and in which order. */
  lemma PlanExactly(reg: Registry, c: Config, e: Event, tenant: string, o: Oracles)
    requires ValidRegistry(reg)
    ensures var plan := Plan(reg, c, e, tenant, o);
            && (forall i, j :: 0 <= i < j < |plan| ==> GoesFirst(plan[i], plan[j], c))
            && forall p :: p in plan <==>
                 && ("*" in c.tenantScopes || tenant in c.tenantScopes)
                 && p.id in c.enabledProviders && p.id in reg && reg[p.id] == p
                 && Chosen(c, e, tenant, o, p)
  {
    if InScope(c.tenantScopes, tenant) {
      var found := Instances(c.enabledProviders, reg);
      var fit := Filter(found, Eligibility(c, e, tenant, o));
      PrecedenceIsPreorder(c);
      SortSorts(fit, Precedence(c));
      SortMembers(fit, Precedence(c));
      FilterMembers(found, Eligibility(c, e, tenant, o));
      forall p ensures Eligibility(c, e, tenant, o)(p) <==> Chosen(c, e, tenant, o, p) {
        ChosenIsEligible(c, e, tenant, o, p);
      }
      var plan := Plan(reg, c, e, tenant, o);
      forall i, j | 0 <= i < j < |plan| ensures GoesFirst(plan[i], plan[j], c) {
        assert Precedes(plan[i], plan[j], c);
        PrecedesMeans(plan[i], plan[j], c);
      }
    }
  }

  // ---- the plan ignores the order of the configuration's lists ----

  function Looked(id: string, reg: Registry): multiset<Provider> {
    if id in reg then multiset{reg[id]} else multiset{}
  }

  lemma {:induction false} InstancesRemove(ids: seq<string>, k: nat, id: string, reg: Registry)
    requires k < |ids| && ids[k] == id
    ensures multiset(Instances(ids, reg)) == multiset(Instances(Dropped(ids, k), reg)) + Looked(id, reg)
  {
    if k == 0 {
      assert Dropped(ids, 0) == ids[1..];
    } else {
      InstancesRemove(ids[1..], k - 1, id, reg);
      assert Dropped(ids, k)[0] == ids[0] && Dropped(ids, k)[1..] == Dropped(ids[1..], k - 1);
    }
  }

  lemma {:induction false} InstancesPermute(a: seq<string>, b: seq<string>, reg: Registry)
    requires multiset(a) == multiset(b)
    ensures multiset(Instances(a, reg)) == multiset(Instances(b, reg))
  {
    SameLength(a, b);
    if a != [] {
      var k := MatchHead(a, b);
      InstancesPermute(Dropped(a, 0), Dropped(b, k), reg);
      InstancesRemove(a, 0, a[0], reg);
      InstancesRemove(b, k, a[0], reg);
    }
  }

  lemma RulesPermute(c: Config, c': Config, e: Event, tenant: string, o: Oracles, p: Provider)
    requires multiset(c.rules) == multiset(c'.rules)
    ensures Eligible(c, e, tenant, o, p) == Eligible(c', e, tenant, o, p)
  {
    assert forall r :: r in c.rules <==> r in multiset(c.rules);
    assert forall r :: r in c'.rules <==> r in multiset(c'.rules);
    assert AnyRule(c) <==> exists r :: r in c.rules && r.enabled;
    assert AnyRule(c') <==> exists r :: r in c'.rules && r.enabled;
    assert Targeted(c, e, tenant, o, p.id) <==>
           exists r :: r in c.rules && Triggers(r, e, tenant, o) && p.id in r.providers;
    assert Targeted(c', e, tenant, o, p.id) <==>
           exists r :: r in c'.rules && Triggers(r, e, tenant, o) && p.id in r.providers;
  }

  lemma {:induction false} SortAgree<T(!new)>(xs: seq<T>, le: (T, T) -> bool, ge: (T, T) -> bool)
    requires forall x, y :: x in xs && y in xs ==> le(x, y) == ge(x, y)
    ensures Sort(xs, le) == Sort(xs, ge)
  {
    if xs != [] {
      SortAgree(xs[1..], le, ge);
      SortMembers(xs[1..], le);
      forall y | y in Sort(xs[1..], le) ensures le(xs[0], y) == ge(xs[0], y) {
        assert y in xs[1..] && xs[0] in xs;
      }
      InsertAgree(xs[0], Sort(xs[1..], le), le, ge);
    }
  }

  lemma {:induction false} InsertAgree<T(!new)>(x: T, ys: seq<T>, le: (T, T) -> bool, ge: (T, T) -> bool)
    requires forall y :: y in ys ==> le(x, y) == ge(x, y)
    ensures Insert(x, ys, le) == Insert(x, ys, ge)
  {
    if ys != [] {
      InsertAgree(x, ys[1..], le, ge);
    }
  }

  /** Candidates drawn from a registry are ordered by the sort key alone. */
  lemma SortIgnoresOrder(a: seq<Provider>, b: seq<Provider>, reg: Registry, c: Config)
    requires ValidRegistry(reg) && multiset(a) == multiset(b)
    requires forall p :: p in a ==> p.id in reg && reg[p.id] == p
    ensures Sort(a, Precedence(c)) == Sort(b, Precedence(c))
  {
    var le := Precedence(c);
    PrecedenceIsPreorder(c);
    SortSorts(a, le);
    SortSorts(b, le);
    SortMembers(a, le);
    forall p, q | p in Sort(a, le) && q in Sort(a, le) && le(p, q) && le(q, p) ensures p == q {
      TiesShareId(p, q, c);
    }
    SortedUnique(Sort(a, le), Sort(b, le), le);
  }

  /** Permuting `enabled_providers` or `rules`, duplicates included, does not change the plan. */
  lemma PlanIgnoresOrder(reg: Registry, c: Config, c': Config, e: Event, tenant: string, o: Oracles)
    requires ValidRegistry(reg)
    requires multiset(c.enabledProviders) == multiset(c'.enabledProviders) && multiset(c.rules) == multiset(c'.rules)
    requires c' == c.(enabledProviders := c'.enabledProviders, rules := c'.rules)
    ensures Plan(reg, c, e, tenant, o) == Plan(reg, c', e, tenant, o)
  {
    var f, f' := Eligibility(c, e, tenant, o), Eligibility(c', e, tenant, o);
    var a, b := Instances(c.enabledProviders, reg), Instances(c'.enabledProviders, reg);
    InstancesPermute(c.enabledProviders, c'.enabledProviders, reg);
    FilterPermutes(a, b, f);
    forall p ensures f(p) == f'(p) {
      RulesPermute(c, c', e, tenant, o, p);
    }
    FilterAgree(b, f, f');
    FilterMembers(a, f);
    SortIgnoresOrder(Filter(a, f), Filter(b, f), reg, c);
    forall p, q ensures Precedence(c)(p, q) == Precedence(c')(p, q) {
      assert SortKey(p, c) == SortKey(p, c') && SortKey(q, c) == SortKey(q, c');
    }
    SortAgree(Filter(b, f'), Precedence(c), Precedence(c'));
  }
}
