/**
 Cache transparency for concurrent requests: a request looks up the cache, calls
 the provider and fills the cache while others do the same in between.
 */
module CacheInterleaving {
  import opened Results
  import opened Orders
  import opened OrderedDicts
  import opened EnrichmentModel
  import opened EnrichmentCache
  import opened EnrichmentMerge
  import opened EnrichmentPlanner
  import opened EnrichmentEngine
  import opened CacheTransparency

  /** A request in progress: its plan, whether it is waiting for a provider, and what it has done. */
  datatype Running = Running(job: Job, plan: seq<Provider>, calling: bool, ext: Fields, turns: seq<Turn>) {
    predicate Done() {
      |turns| >= |plan|
    }

    /** The request after one more turn. */
    function Took(turn: Turn): Running {
      Running(job, plan, false, Merged(ext, turn.provider.namespace, turn.verdict.data), turns + [turn])
    }
  }

  datatype Shop = Shop(cache: Cached, running: seq<Running>)

  /** A request arrives, looks up the cache, or gets its provider's answer; or the cache is invalidated. */
  datatype Move = Arrive(job: Job) | Look(j: nat) | Answer(j: nat) | Drop(slot: Slot) | Empty

  function Looked(s: Shop, j: nat): Shop
    requires j < |s.running| && !s.running[j].Done()
  {
    var r := s.running[j];
    var i, sc := |r.turns|, r.job.sc;
    var p := r.plan[i];
    if sc.caching then
      var (looked, hit) := Fetched(s.cache, BuildKey(SlotFor(p, sc)), sc.w.readTime(i));
      if hit.Some? then Shop(looked, s.running[j := r.Took(HitTurn(p, hit.value))])
      else Shop(looked, s.running[j := r.(calling := true)])
    else s.(running := s.running[j := r.(calling := true)])
  }

  function Answered'(s: Shop, j: nat): Shop
    requires j < |s.running| && !s.running[j].Done()
  {
    var r := s.running[j];
    var (cache, turn) := AfterMiss(r.plan[|r.turns|], r.ext, s.cache, r.job.sc, |r.turns|);
    Shop(cache, s.running[j := r.Took(turn)])
  }

  function Moved(s: Shop, m: Move, g: Setting): Shop {
    match m
    case Arrive(job) => s.(running := s.running + [Running(job, PlanOf(job, g.reg), false, job.ext, [])])
    case Look(j) =>
      if j < |s.running| && !s.running[j].Done() && !s.running[j].calling then Looked(s, j) else s
    case Answer(j) =>
      if j < |s.running| && !s.running[j].Done() && s.running[j].calling then Answered'(s, j) else s
    case Drop(slot) =>
      if BuildKey(slot) in s.cache.entries then s.(cache := s.cache.Delete(BuildKey(slot))) else s
    case Empty => s.(cache := OrderedDict([], map[]))
  }

  /** The shop before move `n`; it opens with an empty cache. */
  function ShopAt(moves: seq<Move>, n: nat, g: Setting): Shop
    requires n <= |moves|
  {
    if n == 0 then Shop(OrderedDict([], map[]), []) else Moved(ShopAt(moves, n - 1, g), moves[n - 1], g)
  }

  // ---- what every move keeps ----

  /** The request has a sound plan and has so far done what the keyed providers' answers say. */
  ghost predicate OnCourse(r: Running, maxSize: nat, g: Setting) {
    var sc := r.job.sc;
    && OpOf(Serve(r.job), maxSize, g) && r.plan == PlanOf(r.job, g.reg) && AllRegistered(r.plan, g.reg)
    && |r.turns| <= |r.plan| && Follows(r.turns, r.plan[..|r.turns|])
    && Answered(r.turns, sc.core, sc.tenant, g) && Gathered(r)
  }

  ghost predicate Gathered(r: Running) {
    r.ext == MergeAll(r.job.ext, Map(r.turns, ContributionOf))
  }

  ghost predicate InOrder(s: Shop, maxSize: nat, g: Setting) {
    Truthful(s.cache, maxSize, g) && forall j :: 0 <= j < |s.running| ==> OnCourse(s.running[j], maxSize, g)
  }

  /** A turn that a request may take next. */
  ghost predicate Fitting(r: Running, turn: Turn, g: Setting) {
    && |r.turns| < |r.plan| && turn.provider == r.plan[|r.turns|] && Consistent(turn.verdict)
    && (turn.provider in g.keyed ==>
         Restored(turn.verdict) == Verdicts(turn.provider, r.job.sc.core, r.job.sc.tenant, g))
  }

  lemma TookGathers(r: Running, turn: Turn)
    requires Gathered(r)
    ensures Gathered(r.Took(turn))
  {
    assert Map(r.turns + [turn], ContributionOf) == Map(r.turns, ContributionOf) + [ContributionOf(turn)];
    MergeAllSnoc(r.job.ext, Map(r.turns, ContributionOf), ContributionOf(turn));
  }

  lemma TookStaysOnCourse(r: Running, turn: Turn, maxSize: nat, g: Setting)
    requires OnCourse(r, maxSize, g) && Fitting(r, turn, g)
    ensures OnCourse(r.Took(turn), maxSize, g)
  {
    var k := |r.turns|;
    assert r.plan[..k + 1][..k] == r.plan[..k];
    FollowsSnoc(r.turns, r.plan[..k + 1], turn);
    AnsweredSnoc(r.turns, turn, r.job.sc.core, r.job.sc.tenant, g);
    TookGathers(r, turn);
  }

  /** The planned provider at the request's position is registered and, if keyed, answers by key. */
  lemma PositionIsKeyed(r: Running, maxSize: nat, g: Setting)
    requires OnCourse(r, maxSize, g) && !r.Done()
    ensures Registered(r.plan[|r.turns|], g.reg) && KeyedAt(r.job.sc, r.plan[|r.turns|], g)
    ensures ValidTenant(r.job.sc.tenant) && r.job.sc.maxSize == maxSize
  {
  }

  lemma HitFits(r: Running, d: Cached, maxSize: nat, g: Setting)
    requires PlainRegistry(g.reg) && Truthful(d, maxSize, g) && OnCourse(r, maxSize, g) && !r.Done()
    requires Fetched(d, BuildKey(SlotFor(r.plan[|r.turns|], r.job.sc)), r.job.sc.w.readTime(|r.turns|)).1.Some?
    ensures var hit := Fetched(d, BuildKey(SlotFor(r.plan[|r.turns|], r.job.sc)), r.job.sc.w.readTime(|r.turns|)).1;
            Fitting(r, HitTurn(r.plan[|r.turns|], hit.value), g)
  {
    PositionIsKeyed(r, maxSize, g);
    HitStaysInTenant(d, r.plan[|r.turns|], r.job.sc, r.job.sc.w.readTime(|r.turns|), g);
  }

  lemma AnswerFits(r: Running, d: Cached, maxSize: nat, g: Setting)
    requires OnCourse(r, maxSize, g) && !r.Done()
    ensures Fitting(r, AfterMiss(r.plan[|r.turns|], r.ext, d, r.job.sc, |r.turns|).1, g)
  {
    var p, sc := r.plan[|r.turns|], r.job.sc;
    PositionIsKeyed(r, maxSize, g);
    SettleConsistent(sc.w.enrich(p, Event(sc.core, r.ext), sc.tenant, |r.turns|));
  }

  lemma ReplacedStaysInOrder(s: Shop, j: nat, r: Running, cache: Cached, maxSize: nat, g: Setting)
    requires InOrder(s, maxSize, g) && j < |s.running|
    requires OnCourse(r, maxSize, g) && Truthful(cache, maxSize, g)
    ensures InOrder(Shop(cache, s.running[j := r]), maxSize, g)
  {
  }

  lemma LookKeepsOrder(s: Shop, j: nat, maxSize: nat, g: Setting)
    requires PlainRegistry(g.reg) && InOrder(s, maxSize, g) && j < |s.running| && !s.running[j].Done()
    ensures InOrder(Looked(s, j), maxSize, g)
  {
    var r := s.running[j];
    var i, sc := |r.turns|, r.job.sc;
    var key := BuildKey(SlotFor(r.plan[i], sc));
    ReplacedStaysInOrder(s, j, r.(calling := true), s.cache, maxSize, g);
    if sc.caching {
      var (looked, hit) := Fetched(s.cache, key, sc.w.readTime(i));
      FetchKeepsTruth(s.cache, maxSize, key, sc.w.readTime(i), g);
      if hit.Some? {
        HitFits(r, s.cache, maxSize, g);
        TookStaysOnCourse(r, HitTurn(r.plan[i], hit.value), maxSize, g);
        ReplacedStaysInOrder(s, j, r.Took(HitTurn(r.plan[i], hit.value)), looked, maxSize, g);
      } else {
        ReplacedStaysInOrder(s, j, r.(calling := true), looked, maxSize, g);
      }
    }
  }

  lemma AnswerKeepsOrder(s: Shop, j: nat, maxSize: nat, g: Setting)
    requires maxSize >= 1 && PlainRegistry(g.reg) && InOrder(s, maxSize, g)
    requires j < |s.running| && !s.running[j].Done()
    ensures InOrder(Answered'(s, j), maxSize, g)
  {
    var r := s.running[j];
    var p, sc, i := r.plan[|r.turns|], r.job.sc, |r.turns|;
    var (cache, turn) := AfterMiss(p, r.ext, s.cache, sc, i);
    PositionIsKeyed(r, maxSize, g);
    MissKeepsTruth(p, r.ext, s.cache, sc, i, g);
    AnswerFits(r, s.cache, maxSize, g);
    TookStaysOnCourse(r, turn, maxSize, g);
    ReplacedStaysInOrder(s, j, r.Took(turn), cache, maxSize, g);
  }

  lemma ArriveKeepsOrder(s: Shop, job: Job, maxSize: nat, g: Setting)
    requires PlainRegistry(g.reg) && InOrder(s, maxSize, g) && OpOf(Serve(job), maxSize, g)
    ensures InOrder(Moved(s, Arrive(job), g), maxSize, g)
  {
    PlanIsRegistered(job, g.reg);
    assert OnCourse(Running(job, PlanOf(job, g.reg), false, job.ext, []), maxSize, g);
  }

  /** Requests belong to one cache and one set of keyed providers; everything else about a run is free. */
  ghost predicate Admissible(m: Move, maxSize: nat, g: Setting) {
    m.Arrive? ==> OpOf(Serve(m.job), maxSize, g)
  }

  lemma MoveKeepsOrder(s: Shop, m: Move, maxSize: nat, g: Setting)
    requires maxSize >= 1 && PlainRegistry(g.reg) && InOrder(s, maxSize, g) && Admissible(m, maxSize, g)
    ensures InOrder(Moved(s, m, g), maxSize, g)
  {
    match m
    case Arrive(job) => ArriveKeepsOrder(s, job, maxSize, g);
    case Look(j) =>
      if j < |s.running| && !s.running[j].Done() && !s.running[j].calling {
        LookKeepsOrder(s, j, maxSize, g);
      }
    case Answer(j) =>
      if j < |s.running| && !s.running[j].Done() && s.running[j].calling {
        AnswerKeepsOrder(s, j, maxSize, g);
      }
    case Drop(slot) => DeleteKeepsTruth(s.cache, BuildKey(slot), maxSize, g);
    case Empty =>
  }

  lemma OpensInOrder(maxSize: nat, g: Setting)
    ensures InOrder(Shop(OrderedDict([], map[]), []), maxSize, g)
  {
  }

  lemma {:induction false} RunStaysInOrder(moves: seq<Move>, n: nat, maxSize: nat, g: Setting)
    requires n <= |moves| && maxSize >= 1 && PlainRegistry(g.reg)
    requires forall k :: 0 <= k < |moves| ==> Admissible(moves[k], maxSize, g)
    ensures InOrder(ShopAt(moves, n, g), maxSize, g)
  {
    if n == 0 {
      OpensInOrder(maxSize, g);
    } else {
      RunStaysInOrder(moves, n - 1, maxSize, g);
      MoveKeepsOrder(ShopAt(moves, n - 1, g), moves[n - 1], maxSize, g);
    }
  }

  // ---- transparency ----

  /** A finished request is accounted for by the answers of the keyed providers. */
  lemma FinishedIsExplained(r: Running, d: Cached, maxSize: nat, g: Setting)
    requires OnCourse(r, maxSize, g) && r.Done()
    ensures Explained(Progress(r.ext, d, r.turns), r.plan, r.job.ext, r.job.sc.core, r.job.sc.tenant, g)
  {
    assert r.plan[..|r.turns|] == r.plan;
  }

  lemma UncachedIsExplained(job: Job, maxSize: nat, g: Setting)
    requires maxSize >= 1 && PlainRegistry(g.reg) && OpOf(Serve(job), maxSize, g)
    ensures Explained(Served(Uncached(job), OrderedDict([], map[]), g.reg), PlanOf(job, g.reg), job.ext,
                      job.sc.core, job.sc.tenant, g)
  {
    PlanIsRegistered(job, g.reg);
    UncachedPlan(job, g.reg);
    LoopIsExplained(PlanOf(job, g.reg), job.ext, OrderedDict([], map[]), Uncached(job).sc, g);
  }

  lemma FinishedAgrees(r: Running, d: Cached, maxSize: nat, g: Setting, namespace: string, key: string)
    requires maxSize >= 1 && PlainRegistry(g.reg) && OnCourse(r, maxSize, g) && r.Done()
    requires KeyedNamespace(PlanOf(r.job, g.reg), g.keyed, namespace)
    ensures Field(r.ext, namespace, key) ==
            Field(Served(Uncached(r.job), OrderedDict([], map[]), g.reg).ext, namespace, key)
  {
    FinishedIsExplained(r, d, maxSize, g);
    UncachedIsExplained(r.job, maxSize, g);
    ExplainedFieldsAgree(
      r.plan, r.job.ext, Progress(r.ext, d, r.turns), Served(Uncached(r.job), OrderedDict([], map[]), g.reg),
      r.job.sc.core, r.job.sc.tenant, g, namespace, key);
  }

  /**
   However concurrent requests interleave, with evictions, expiries and
   invalidations in between, a finished request leaves every field of a namespace
   served by keyed providers as it would have alone and without a cache.
   */
  lemma InterleavedTransparent(
      moves: seq<Move>, n: nat, j: nat, maxSize: nat, g: Setting, namespace: string, key: string)
    requires n <= |moves| && maxSize >= 1 && PlainRegistry(g.reg)
    requires forall k :: 0 <= k < |moves| ==> Admissible(moves[k], maxSize, g)
    requires j < |ShopAt(moves, n, g).running| && ShopAt(moves, n, g).running[j].Done()
    requires KeyedNamespace(PlanOf(ShopAt(moves, n, g).running[j].job, g.reg), g.keyed, namespace)
    ensures var r := ShopAt(moves, n, g).running[j];
            Field(r.ext, namespace, key) ==
            Field(Served(Uncached(r.job), OrderedDict([], map[]), g.reg).ext, namespace, key)
  {
    RunStaysInOrder(moves, n, maxSize, g);
    FinishedAgrees(ShopAt(moves, n, g).running[j], ShopAt(moves, n, g).cache, maxSize, g, namespace, key);
  }
}
