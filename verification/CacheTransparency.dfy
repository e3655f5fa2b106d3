/**
 The cache does not show: for providers whose answer depends only on the lookup
 key, and on the tenant if they are tenant-sensitive, every run of requests
 enriches events as it would without a cache.
 */
module CacheTransparency {
  import opened Results
  import opened Floats
  import opened Orders
  import opened OrderedDicts
  import opened EnrichmentModel
  import opened EnrichmentCache
  import opened EnrichmentMerge
  import opened EnrichmentPlanner
  import opened EnrichmentEngine

  /** What a provider answers for a tenant scope ("" for global providers) and a lookup key. */
  type Answers = (Provider, string, string) -> Call

  /** The engine's registry, which of its providers are keyed, and what those answer. */
  datatype Setting = Setting(reg: Registry, keyed: set<Provider>, answers: Answers)

  function ScopeOf(p: Provider, tenant: string): string {
    if p.tenantSensitive then tenant else ""
  }

  function Verdicts(p: Provider, core: Core, tenant: string, g: Setting): Verdict {
    Settle(g.answers(p, ScopeOf(p, tenant), LookupKey(core, p)))
  }

  /** A spoiled success, counted as what the provider answered. */
  function Restored(v: Verdict): Verdict {
    if v.tally == Spoiled then Verdict(Succeeded, SUCCESS, v.data) else v
  }

  /** If listed as keyed, the provider answers this request by key alone. */
  ghost predicate KeyedAt(sc: Scene, p: Provider, g: Setting) {
    p in g.keyed ==> forall ext, i ::
      sc.w.enrich(p, Event(sc.core, ext), sc.tenant, i) == g.answers(p, ScopeOf(p, sc.tenant), LookupKey(sc.core, p))
  }

  /** The planned ones among the keyed providers do. */
  ghost predicate Keyed(sc: Scene, plan: seq<Provider>, g: Setting) {
    forall k :: 0 <= k < |plan| ==> KeyedAt(sc, plan[k], g)
  }

  /** Registered under their ids; ids and namespaces have no colon. */
  ghost predicate PlainRegistry(reg: Registry) {
    ValidRegistry(reg) && forall id :: id in reg ==> ':' !in id && ':' !in reg[id].namespace
  }

  ghost predicate Registered(p: Provider, reg: Registry) {
    p.id in reg && reg[p.id] == p
  }

  /** An entry comes from a registered provider and, for a keyed one, holds its answer. */
  ghost predicate Genuine(e: CacheEntry, g: Setting) {
    && ColonFree(e.slot) && e.slot.provider in g.reg
    && var p := g.reg[e.slot.provider];
       && e.slot.isGlobal == !p.tenantSensitive && e.slot.namespace == p.namespace
       && (p in g.keyed ==>
            Settle(g.answers(p, ScopeOf(p, e.slot.tenant), e.slot.lookup)) == Verdict(Succeeded, SUCCESS, e.data))
  }

  ghost predicate Truthful(d: Cached, maxSize: nat, g: Setting) {
    Filed(d, maxSize) && forall k :: k in d.entries ==> Genuine(d.entries[k], g)
  }

  lemma TenantHasNoColon(tenant: TenantId)
    ensures ':' !in tenant
  {
    forall i | 0 <= i < |tenant| ensures tenant[i] != ':' {
      assert TenantChar(tenant[i]);
    }
  }

  /** Tenant isolation: a tenant-sensitive provider's hit was stored for the same tenant. */
  lemma HitStaysInTenant(d: Cached, p: Provider, sc: Scene, now: real, g: Setting)
    requires PlainRegistry(g.reg) && Registered(p, g.reg) && ValidTenant(sc.tenant)
    requires Truthful(d, sc.maxSize, g)
    requires Fetched(d, BuildKey(SlotFor(p, sc)), now).1.Some?
    ensures var hit := Fetched(d, BuildKey(SlotFor(p, sc)), now).1.value;
            && (p.tenantSensitive ==> hit.slot.tenant == sc.tenant)
            && (p in g.keyed ==> Verdicts(p, sc.core, sc.tenant, g) == Verdict(Succeeded, SUCCESS, hit.data))
  {
    TenantHasNoColon(sc.tenant);
    HitIsOwn(d, sc.maxSize, SlotFor(p, sc), now);
  }

  lemma FetchKeepsTruth(d: Cached, maxSize: nat, key: string, now: real, g: Setting)
    requires Truthful(d, maxSize, g)
    ensures Truthful(Fetched(d, key, now).0, maxSize, g)
  {
    FetchKeeps(d, maxSize, key, now);
  }

  lemma StoreKeepsTruth(d: Cached, maxSize: nat, e: CacheEntry, g: Setting)
    requires Truthful(d, maxSize, g) && maxSize >= 1 && Genuine(e, g)
    ensures Truthful(Stored(d, maxSize, e), maxSize, g)
  {
    StoreKeeps(d, maxSize, e);
  }

  lemma SuccessIsGenuine(p: Provider, ext: Fields, sc: Scene, i: nat, ttl: int, g: Setting)
    requires PlainRegistry(g.reg) && Registered(p, g.reg) && ValidTenant(sc.tenant) && KeyedAt(sc, p, g)
    requires Asked(p, ext, sc, i).tally == Succeeded
    ensures Genuine(EntryFor(p, sc, i, ttl, Asked(p, ext, sc, i).data), g)
  {
    TenantHasNoColon(sc.tenant);
  }

  /** What one attempt may do to the cache. */
  lemma AttemptKeepsTruth(p: Provider, ext: Fields, d: Cached, sc: Scene, i: nat, g: Setting)
    requires PlainRegistry(g.reg) && Registered(p, g.reg) && ValidTenant(sc.tenant) && sc.maxSize >= 1
    requires KeyedAt(sc, p, g)
    requires Truthful(d, sc.maxSize, g)
    ensures Truthful(Attempt(p, ext, d, sc, i).0, sc.maxSize, g)
  {
    var key := BuildKey(SlotFor(p, sc));
    FetchKeepsTruth(d, sc.maxSize, key, sc.w.readTime(i), g);
    MissKeepsTruth(p, ext, d, sc, i, g);
    MissKeepsTruth(p, ext, Fetched(d, key, sc.w.readTime(i)).0, sc, i, g);
  }

  lemma MissKeepsTruth(p: Provider, ext: Fields, d: Cached, sc: Scene, i: nat, g: Setting)
    requires PlainRegistry(g.reg) && Registered(p, g.reg) && ValidTenant(sc.tenant) && sc.maxSize >= 1
    requires KeyedAt(sc, p, g) && Truthful(d, sc.maxSize, g)
    ensures Truthful(AfterMiss(p, ext, d, sc, i).0, sc.maxSize, g)
  {
    var v := Asked(p, ext, sc, i);
    if v.tally == Succeeded && Ttl(sc.config, p.id).Some? {
      var ttl := Ttl(sc.config, p.id).value;
      SuccessIsGenuine(p, ext, sc, i, ttl, g);
      StoreKeepsTruth(d, sc.maxSize, EntryFor(p, sc, i, ttl, v.data), g);
    }
  }

  /** A keyed provider's turn is its answer, hit or miss. */
  lemma AttemptIsAnswer(p: Provider, ext: Fields, d: Cached, sc: Scene, i: nat, g: Setting)
    requires PlainRegistry(g.reg) && Registered(p, g.reg) && ValidTenant(sc.tenant) && KeyedAt(sc, p, g)
    requires Truthful(d, sc.maxSize, g) && p in g.keyed
    ensures Restored(Attempt(p, ext, d, sc, i).1.verdict) == Verdicts(p, sc.core, sc.tenant, g)
  {
    var looked := Fetched(d, BuildKey(SlotFor(p, sc)), sc.w.readTime(i)).0;
    MissIsAnswer(p, ext, d, sc, i, g);
    MissIsAnswer(p, ext, looked, sc, i, g);
    if sc.caching && Fetched(d, BuildKey(SlotFor(p, sc)), sc.w.readTime(i)).1.Some? {
      HitStaysInTenant(d, p, sc, sc.w.readTime(i), g);
    }
  }

  lemma MissIsAnswer(p: Provider, ext: Fields, d: Cached, sc: Scene, i: nat, g: Setting)
    requires KeyedAt(sc, p, g) && p in g.keyed
    ensures Restored(AfterMiss(p, ext, d, sc, i).1.verdict) == Verdicts(p, sc.core, sc.tenant, g)
  {
  }

  ghost predicate AllRegistered(plan: seq<Provider>, reg: Registry) {
    forall k :: 0 <= k < |plan| ==> Registered(plan[k], reg)
  }

  /** Every turn of a keyed provider is its answer. */
  ghost predicate Answered(ts: seq<Turn>, core: Core, tenant: string, g: Setting) {
    forall k :: 0 <= k < |ts| && ts[k].provider in g.keyed ==>
      Restored(ts[k].verdict) == Verdicts(ts[k].provider, core, tenant, g)
  }

  lemma AnsweredSnoc(ts: seq<Turn>, t: Turn, core: Core, tenant: string, g: Setting)
    requires Answered(ts, core, tenant, g)
    requires t.provider in g.keyed ==> Restored(t.verdict) == Verdicts(t.provider, core, tenant, g)
    ensures Answered(ts + [t], core, tenant, g)
  {
  }

  ghost predicate Sound(s: Progress, sc: Scene, g: Setting) {
    Truthful(s.cache, sc.maxSize, g) && Answered(s.turns, sc.core, sc.tenant, g)
  }

  lemma TurnKeepsSound(
      s: Progress, s': Progress, p: Provider, turn: Turn, sc: Scene, i: nat, g: Setting)
    requires PlainRegistry(g.reg) && Registered(p, g.reg) && ValidTenant(sc.tenant) && sc.maxSize >= 1
    requires KeyedAt(sc, p, g)
    requires Sound(s, sc, g)
    requires (s'.cache, turn) == Attempt(p, s.ext, s.cache, sc, i) && s'.turns == s.turns + [turn] && turn.provider == p
    ensures Sound(s', sc, g)
  {
    AttemptKeepsTruth(p, s.ext, s.cache, sc, i, g);
    if p in g.keyed {
      AttemptIsAnswer(p, s.ext, s.cache, sc, i, g);
    }
    AnsweredSnoc(s.turns, turn, sc.core, sc.tenant, g);
  }

  lemma {:induction false} LoopKeepsTruth(
      plan: seq<Provider>, n: nat, start: Progress, sc: Scene, g: Setting)
    requires n <= |plan| && PlainRegistry(g.reg) && AllRegistered(plan, g.reg) && ValidTenant(sc.tenant)
    requires sc.maxSize >= 1
    requires Keyed(sc, plan, g) && Truthful(start.cache, sc.maxSize, g)
    ensures Sound(After(plan, n, start, sc), sc, g)
  {
    if n > 0 {
      LoopKeepsTruth(plan, n - 1, start, sc, g);
      var s, turn := AfterStep(plan, n, start, sc);
      TurnKeepsSound(s, After(plan, n, start, sc), plan[n - 1], turn, sc, n - 1, g);
    }
  }

  // ---- two runs of one plan ----

  /** Providers of the namespace are all keyed. */
  ghost predicate KeyedNamespace(plan: seq<Provider>, keyed: set<Provider>, namespace: string) {
    forall k :: 0 <= k < |plan| && plan[k].namespace == namespace ==> plan[k] in keyed
  }

  lemma {:induction false} SuppliersAgree(a: seq<Contribution>, b: seq<Contribution>, namespace: string, key: string)
    requires |a| == |b| && forall k :: 0 <= k < |a| ==> a[k].namespace == b[k].namespace
    requires forall k :: 0 <= k < |a| && a[k].namespace == namespace ==> a[k] == b[k]
    ensures FirstSupplied(a, namespace, key) == FirstSupplied(b, namespace, key)
  {
    if a != [] {
      SuppliersAgree(a[1..], b[1..], namespace, key);
    }
  }

  /** The loop's end is accounted for by the answers of the keyed providers. */
  ghost predicate Explained(
      s: Progress, plan: seq<Provider>, ext: Fields, core: Core, tenant: string, g: Setting)
  {
    && Follows(s.turns, plan) && Answered(s.turns, core, tenant, g)
    && s.ext == MergeAll(ext, Map(s.turns, ContributionOf))
  }

  lemma LoopIsExplained(plan: seq<Provider>, ext: Fields, c: Cached, sc: Scene, g: Setting)
    requires PlainRegistry(g.reg) && AllRegistered(plan, g.reg) && ValidTenant(sc.tenant) && sc.maxSize >= 1
    requires Keyed(sc, plan, g) && Truthful(c, sc.maxSize, g)
    ensures Explained(After(plan, |plan|, Progress(ext, c, []), sc), plan, ext, sc.core, sc.tenant, g)
  {
    var start := Progress(ext, c, []);
    assert plan[..|plan|] == plan;
    LoopKeepsTruth(plan, |plan|, start, sc, g);
    TurnsFollowPlan(plan, |plan|, start, sc);
    LoopMerges(plan, |plan|, start, sc);
  }

  /** Two runs of one plan on one event, with different caches, or clocks, or none at all. */
  lemma TwoRunsAgree(
      plan: seq<Provider>, ext: Fields, c1: Cached, c2: Cached, sc1: Scene, sc2: Scene,
      g: Setting, namespace: string, key: string)
    requires PlainRegistry(g.reg) && AllRegistered(plan, g.reg) && ValidTenant(sc1.tenant)
    requires sc1.core == sc2.core && sc1.tenant == sc2.tenant && sc1.maxSize >= 1 && sc2.maxSize >= 1
    requires Keyed(sc1, plan, g) && Keyed(sc2, plan, g) && KeyedNamespace(plan, g.keyed, namespace)
    requires Truthful(c1, sc1.maxSize, g) && Truthful(c2, sc2.maxSize, g)
    ensures var e1 := After(plan, |plan|, Progress(ext, c1, []), sc1).ext;
            var e2 := After(plan, |plan|, Progress(ext, c2, []), sc2).ext;
            Field(e1, namespace, key) == Field(e2, namespace, key)
  {
    LoopIsExplained(plan, ext, c1, sc1, g);
    LoopIsExplained(plan, ext, c2, sc2, g);
    ExplainedFieldsAgree(
      plan, ext, After(plan, |plan|, Progress(ext, c1, []), sc1), After(plan, |plan|, Progress(ext, c2, []), sc2),
      sc1.core, sc1.tenant, g, namespace, key);
  }

  lemma ExplainedFieldsAgree(
      plan: seq<Provider>, ext: Fields, s1: Progress, s2: Progress, core: Core, tenant: string,
      g: Setting, namespace: string, key: string)
    requires KeyedNamespace(plan, g.keyed, namespace)
    requires Explained(s1, plan, ext, core, tenant, g) && Explained(s2, plan, ext, core, tenant, g)
    ensures Field(s1.ext, namespace, key) == Field(s2.ext, namespace, key)
  {
    var a, b := Map(s1.turns, ContributionOf), Map(s2.turns, ContributionOf);
    SuppliersAgree(a, b, namespace, key);
    FirstWriterWins(ext, a, namespace, key);
    FirstWriterWins(ext, b, namespace, key);
  }

  // ---- runs of requests ----

  /** One request: its scene, its event's extensions and the oracles its plan is made with. */
  datatype Job = Job(sc: Scene, ext: Fields, o: Oracles)

  datatype Op = Serve(job: Job) | Invalidate(slot: Slot) | Clear

  function PlanOf(job: Job, reg: Registry): seq<Provider> {
    Plan(reg, job.sc.config, Event(job.sc.core, job.ext), job.sc.tenant, job.o)
  }

  function Served(job: Job, d: Cached, reg: Registry): Progress {
    var plan := PlanOf(job, reg);
    After(plan, |plan|, Progress(job.ext, d, []), job.sc)
  }

  function Next(d: Cached, op: Op, reg: Registry): Cached {
    match op
    case Serve(job) => Served(job, d, reg).cache
    case Invalidate(slot) => if BuildKey(slot) in d.entries then d.Delete(BuildKey(slot)) else d
    case Clear => OrderedDict([], map[])
  }

  /** The cache before operation `n`; it starts empty. */
  function CacheAt(ops: seq<Op>, n: nat, reg: Registry): Cached
    requires n <= |ops|
  {
    if n == 0 then OrderedDict([], map[]) else Next(CacheAt(ops, n - 1, reg), ops[n - 1], reg)
  }

  /** The run uses one cache and one set of keyed providers; everything else is free. */
  ghost predicate RunOf(ops: seq<Op>, maxSize: nat, g: Setting) {
    forall k :: 0 <= k < |ops| ==> OpOf(ops[k], maxSize, g)
  }

  lemma PlanIsRegistered(job: Job, reg: Registry)
    requires ValidRegistry(reg)
    ensures AllRegistered(PlanOf(job, reg), reg)
  {
    PlanExactly(reg, job.sc.config, Event(job.sc.core, job.ext), job.sc.tenant, job.o);
    var plan := PlanOf(job, reg);
    forall k | 0 <= k < |plan| ensures Registered(plan[k], reg) {
      assert plan[k] in plan;
    }
  }

  /** The operation belongs to a run of one cache and one set of keyed providers. */
  ghost predicate OpOf(op: Op, maxSize: nat, g: Setting) {
    op.Serve? ==>
      && op.job.sc.maxSize == maxSize && ValidTenant(op.job.sc.tenant)
      && Keyed(op.job.sc, PlanOf(op.job, g.reg), g)
  }

  lemma NextKeepsTruth(d: Cached, op: Op, maxSize: nat, g: Setting)
    requires maxSize >= 1 && PlainRegistry(g.reg) && OpOf(op, maxSize, g) && Truthful(d, maxSize, g)
    ensures Truthful(Next(d, op, g.reg), maxSize, g)
  {
    match op
    case Serve(job) =>
      PlanIsRegistered(job, g.reg);
      var plan := PlanOf(job, g.reg);
      LoopKeepsTruth(plan, |plan|, Progress(job.ext, d, []), job.sc, g);
    case Invalidate(slot) =>
      DeleteKeepsTruth(d, BuildKey(slot), maxSize, g);
    case Clear =>
  }

  ghost predicate TruthfulAt(ops: seq<Op>, n: nat, maxSize: nat, g: Setting) {
    n <= |ops| && Truthful(CacheAt(ops, n, g.reg), maxSize, g)
  }

  lemma TruthfulAtFirst(ops: seq<Op>, maxSize: nat, g: Setting)
    ensures TruthfulAt(ops, 0, maxSize, g)
  {
  }

  lemma TruthfulNext(ops: seq<Op>, n: nat, maxSize: nat, g: Setting)
    requires 0 < n <= |ops| && maxSize >= 1 && PlainRegistry(g.reg) && OpOf(ops[n - 1], maxSize, g)
    requires TruthfulAt(ops, n - 1, maxSize, g)
    ensures TruthfulAt(ops, n, maxSize, g)
  {
    NextKeepsTruth(CacheAt(ops, n - 1, g.reg), ops[n - 1], maxSize, g);
  }

  /** Whatever has happened so far, the cache tells the truth about keyed providers. */
  lemma {:induction false} RunKeepsTruth(ops: seq<Op>, n: nat, maxSize: nat, g: Setting)
    requires n <= |ops| && maxSize >= 1 && PlainRegistry(g.reg) && RunOf(ops, maxSize, g)
    ensures TruthfulAt(ops, n, maxSize, g)
  {
    if n == 0 {
      TruthfulAtFirst(ops, maxSize, g);
    } else {
      RunKeepsTruth(ops, n - 1, maxSize, g);
      TruthfulNext(ops, n, maxSize, g);
    }
  }

  lemma DeleteKeepsTruth(d: Cached, key: string, maxSize: nat, g: Setting)
    requires Truthful(d, maxSize, g)
    ensures Truthful(d.Delete(key), maxSize, g)
  {
    WithoutDistinct(d.order, key);
  }

  /** The same request with the cache switched off. */
  function Uncached(job: Job): Job {
    job.(sc := job.sc.(caching := false))
  }

  lemma UncachedPlan(job: Job, reg: Registry)
    ensures PlanOf(Uncached(job), reg) == PlanOf(job, reg)
  {
  }

  /**
   Whatever was evicted, expired or invalidated before, a request leaves every
   field of a namespace served by keyed providers as it would without a cache.
   */
  lemma CacheTransparent(
      ops: seq<Op>, n: nat, maxSize: nat, g: Setting, namespace: string, key: string)
    requires n < |ops| && ops[n].Serve? && maxSize >= 1 && PlainRegistry(g.reg) && RunOf(ops, maxSize, g)
    requires KeyedNamespace(PlanOf(ops[n].job, g.reg), g.keyed, namespace)
    ensures var job := ops[n].job;
            Field(Served(job, CacheAt(ops, n, g.reg), g.reg).ext, namespace, key) ==
            Field(Served(Uncached(job), OrderedDict([], map[]), g.reg).ext, namespace, key)
  {
    var job := ops[n].job;
    RunKeepsTruth(ops, n, maxSize, g);
    PlanIsRegistered(job, g.reg);
    UncachedPlan(job, g.reg);
    TwoRunsAgree(PlanOf(job, g.reg), job.ext, CacheAt(ops, n, g.reg), OrderedDict([], map[]), job.sc, Uncached(job).sc,
                 g, namespace, key);
  }

  ghost predicate SomeFails(ts: seq<Turn>) {
    Has(ts, Failed) || Has(ts, TimedOut) || Has(ts, Unrecorded)
  }

  /**
   Two runs contribute the same, and differ in a verdict or in the status only
   through spoiled successes of the first.
   */
  ghost predicate AgreeButSpoiled(a: Progress, b: Progress, statusA: Status, statusB: Status) {
    && a.ext == b.ext && |a.turns| == |b.turns|
    && (forall k :: 0 <= k < |a.turns| ==> Restored(a.turns[k].verdict) == b.turns[k].verdict)
    && (forall k :: 0 <= k < |a.turns| ==>
         (a.turns[k].verdict == b.turns[k].verdict <==> a.turns[k].verdict.tally != Spoiled))
    && (statusA == statusB <==> !Has(a.turns, Spoiled) || SomeFails(b.turns))
  }

  /**
   If every planned provider is keyed, all extensions agree, and verdicts and
   status do too, exactly except where a cached success is spoiled.
   */
  lemma CacheTransparentWhole(ops: seq<Op>, n: nat, maxSize: nat, g: Setting)
    requires n < |ops| && ops[n].Serve? && maxSize >= 1 && PlainRegistry(g.reg) && RunOf(ops, maxSize, g)
    requires forall k :: 0 <= k < |PlanOf(ops[n].job, g.reg)| ==> PlanOf(ops[n].job, g.reg)[k] in g.keyed
    ensures var job := ops[n].job;
            var a := Served(job, CacheAt(ops, n, g.reg), g.reg);
            var b := Served(Uncached(job), OrderedDict([], map[]), g.reg);
            AgreeButSpoiled(a, b, OutcomeOf(a, job.sc).status, OutcomeOf(b, Uncached(job).sc).status)
  {
    var job := ops[n].job;
    var plan, off := PlanOf(job, g.reg), Uncached(job).sc;
    RunKeepsTruth(ops, n, maxSize, g);
    PlanIsRegistered(job, g.reg);
    UncachedPlan(job, g.reg);
    LoopIsExplained(plan, job.ext, CacheAt(ops, n, g.reg), job.sc, g);
    LoopIsExplained(plan, job.ext, OrderedDict([], map[]), off, g);
    TurnsExplain(plan, Progress(job.ext, OrderedDict([], map[]), []), off);
    var a, b := Served(job, CacheAt(ops, n, g.reg), g.reg), Served(Uncached(job), OrderedDict([], map[]), g.reg);
    NeverSpoiled(b.turns, plan, Progress(job.ext, OrderedDict([], map[]), []), off);
    ExplainedRunsAgree(plan, job.ext, a, b, job.sc, off, g);
  }

  lemma NeverSpoiled(ts: seq<Turn>, plan: seq<Provider>, start: Progress, sc: Scene)
    requires Explains(ts, plan, start, sc) && !sc.caching
    ensures !Has(ts, Spoiled)
  {
  }

  lemma ExplainedRunsAgree(
      plan: seq<Provider>, ext: Fields, a: Progress, b: Progress, sc: Scene, off: Scene, g: Setting)
    requires sc.core == off.core && sc.tenant == off.tenant && forall k :: 0 <= k < |plan| ==> plan[k] in g.keyed
    requires Explained(a, plan, ext, sc.core, sc.tenant, g) && Explained(b, plan, ext, sc.core, sc.tenant, g)
    requires !Has(b.turns, Spoiled)
    ensures AgreeButSpoiled(a, b, OutcomeOf(a, sc).status, OutcomeOf(b, off).status)
  {
    TurnsAgree(plan, a.turns, b.turns, sc.core, sc.tenant, g);
    OutcomeReads(a, sc);
    OutcomeReads(b, off);
    StatusesAgree(a.turns, b.turns, OutcomeOf(a, sc).status, OutcomeOf(b, off).status);
  }

  lemma TurnsAgree(plan: seq<Provider>, ta: seq<Turn>, tb: seq<Turn>, core: Core, tenant: string, g: Setting)
    requires Follows(ta, plan) && Follows(tb, plan) && forall k :: 0 <= k < |plan| ==> plan[k] in g.keyed
    requires Answered(ta, core, tenant, g) && Answered(tb, core, tenant, g) && !Has(tb, Spoiled)
    ensures Map(ta, ContributionOf) == Map(tb, ContributionOf)
    ensures |ta| == |tb| && forall k :: 0 <= k < |ta| ==> Restored(ta[k].verdict) == tb[k].verdict
  {
    forall k | 0 <= k < |ta|
      ensures Restored(ta[k].verdict) == tb[k].verdict && ContributionOf(ta[k]) == ContributionOf(tb[k])
    {
      assert ta[k].provider == plan[k] && tb[k].provider == plan[k];
    }
  }

  lemma StatusesAgree(ta: seq<Turn>, tb: seq<Turn>, statusA: Status, statusB: Status)
    requires TallyReads(statusA, ta) && TallyReads(statusB, tb) && !Has(tb, Spoiled)
    requires |ta| == |tb| && forall k :: 0 <= k < |ta| ==> Restored(ta[k].verdict) == tb[k].verdict
    ensures statusA == statusB <==> !Has(ta, Spoiled) || SomeFails(tb)
  {
    TalliesAgree(ta, tb, Failed);
    TalliesAgree(ta, tb, TimedOut);
    TalliesAgree(ta, tb, NotFound);
    TalliesAgree(ta, tb, Unrecorded);
    if Has(ta, Spoiled) {
      var k :| 0 <= k < |ta| && ta[k].verdict.tally == Spoiled;
      assert tb[k].verdict.tally == Succeeded;
    } else {
      SuccessesAgree(ta, tb);
    }
  }

  lemma TalliesAgree(ta: seq<Turn>, tb: seq<Turn>, y: Tally)
    requires y != Succeeded && y != Spoiled
    requires |ta| == |tb| && forall k :: 0 <= k < |ta| ==> Restored(ta[k].verdict) == tb[k].verdict
    ensures (Has(ta, y) <==> Has(tb, y)) && (AllAre(ta, y) <==> AllAre(tb, y))
  {
    assert forall k :: 0 <= k < |ta| ==> (ta[k].verdict.tally == y <==> tb[k].verdict.tally == y);
  }

  lemma SuccessesAgree(ta: seq<Turn>, tb: seq<Turn>)
    requires !Has(ta, Spoiled) && |ta| == |tb| && forall k :: 0 <= k < |ta| ==> Restored(ta[k].verdict) == tb[k].verdict
    ensures Has(ta, Succeeded) <==> Has(tb, Succeeded)
  {
    assert forall k :: 0 <= k < |ta| ==> (ta[k].verdict.tally == Succeeded <==> tb[k].verdict.tally == Succeeded);
  }

  // ---- the GeoIP provider ----

  /**
   A provider that applies when there is an address and looks only at the first
   one, as the local GeoIP database does.
   */
  ghost predicate LooksUpAddress(p: Provider, sc: Scene, o: Oracles, lookup: string -> Call) {
    && p.namespace == "geo"
    && (forall ext :: o.canEnrich(p, Event(sc.core, ext), sc.tenant) <==>
        Or(sc.core.sourceIp, Or(sc.core.destinationIp, "")) != "")
    && (forall ext, i :: sc.w.enrich(p, Event(sc.core, ext), sc.tenant, i) ==
          var ip := Or(sc.core.sourceIp, Or(sc.core.destinationIp, ""));
          if ip == "" then Returned(Output(SKIPPED, map[], Finite(1.0))) else lookup(ip))
  }

  /** Such a provider qualifies for the theorem whenever it is planned. */
  lemma GeoIpIsKeyed(p: Provider, job: Job, lookup: string -> Call, g: Setting)
    requires ValidRegistry(g.reg) && p in PlanOf(job, g.reg) && LooksUpAddress(p, job.sc, job.o, lookup)
    requires forall scope, key :: g.answers(p, scope, key) == lookup(key)
    ensures KeyedAt(job.sc, p, g)
  {
    PlanExactly(g.reg, job.sc.config, Event(job.sc.core, job.ext), job.sc.tenant, job.o);
    assert job.o.canEnrich(p, Event(job.sc.core, job.ext), job.sc.tenant);
  }
}
