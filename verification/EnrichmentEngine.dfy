/**
 The enrichment engine (M4/app/enrichment/engine.py): the provider loop with
 cache, merge, provenance, diagnostics and counters.
 */
module EnrichmentEngine {
  import opened Results
  import opened Orders
  import opened AsciiText
  import opened Floats
  import opened OrderedDicts
  import opened EnrichmentModel
  import opened EnrichmentCache
  import opened EnrichmentMerge
  import opened EnrichmentPlanner
  import opened ConfigLifecycle

  /**
   What a request meets: the providers' answers and the clock readings, per
   position in the plan, and the rendering of the provenance list.
   */
  datatype World = World(
    enrich: (Provider, Event, string, nat) -> Call,
    readTime: nat -> real, writeTime: nat -> real,
    render: seq<Record> -> string)

  /** Everything fixed while the loop runs. */
  datatype Scene = Scene(core: Core, tenant: string, config: Config, caching: bool, maxSize: nat, w: World)

  /**
   `Spoiled` and `Unrecorded` are successes that are counted as failed, too:
   computing the cache lifetime raises, or recording the provenance does.
   */
  datatype Tally = Succeeded | Failed | TimedOut | NotFound | Spoiled | Unrecorded

  datatype CacheStatus = HIT | MISS | BYPASS

  /** How one provider's attempt counts, what status it reports and what it contributes. */
  datatype Verdict = Verdict(tally: Tally, status: Status, data: Fields)

  datatype Turn = Turn(provider: Provider, verdict: Verdict, cacheStatus: CacheStatus)

  datatype Diagnostic = Diagnostic(provider: string, version: string, status: Status, cached: bool)

  datatype Record = Record(
    provider: string, version: string, namespace: string, status: Status, configVersion: string,
        cacheStatus: CacheStatus)

  // ---- one attempt ----

  // Lower-casing maps no character outside ASCII into one of these words.
  const FORBIDDEN_KEYS: set<string> :=
    {"__proto__", "prototype", "constructor", "event", "provenance", "integrity"}

  predicate ValidOutput(data: Fields) {
    forall k :: k in data ==> Lower(k) !in FORBIDDEN_KEYS
  }

  function Settle(call: Call): Verdict {
    match call
    case RaisedTimeout => Verdict(TimedOut, TIMEOUT, map[])
    case RaisedOther => Verdict(Failed, FAILED, map[])
    case Returned(o) =>
      if o.status == SUCCESS then
        if !ValidOutput(o.data) then Verdict(Failed, FAILED, map[])
        else if !Recordable(o.confidence) then Verdict(Unrecorded, FAILED, o.data)
        else Verdict(Succeeded, SUCCESS, o.data)
      else if o.status == NOT_FOUND then Verdict(NotFound, NOT_FOUND, map[])
      else Verdict(Failed, o.status, map[])
  }

  /** The entry's lifetime, read from the provider's timeout if one is configured; `None` where `int()` raises. */
  function Ttl(c: Config, id: string): Option<int> {
    if id in c.timeouts then ToInt(c.timeouts[id]) else Some(c.cacheTtl)
  }

  function SlotFor(p: Provider, sc: Scene): Slot {
    Slot(sc.tenant, p.id, p.namespace, LookupKey(sc.core, p), !p.tenantSensitive)
  }

  function Asked(p: Provider, ext: Fields, sc: Scene, i: nat): Verdict {
    Settle(sc.w.enrich(p, Event(sc.core, ext), sc.tenant, i))
  }

  function EntryFor(p: Provider, sc: Scene, i: nat, ttl: int, data: Fields): CacheEntry {
    CacheEntry(SlotFor(p, sc), sc.w.writeTime(i), ttl, data)
  }

  function HitTurn(p: Provider, e: CacheEntry): Turn {
    Turn(p, Verdict(Succeeded, SUCCESS, e.data), HIT)
  }

  /** The provider is asked, and what it answers is cached if caching is on. */
  function AfterMiss(p: Provider, ext: Fields, cache: Cached, sc: Scene, i: nat): (Cached, Turn) {
    var v := Asked(p, ext, sc, i);
    if !v.tally.Succeeded? then (cache, Turn(p, v, MISS))
    else if !sc.caching then (cache, Turn(p, v, BYPASS))
    else match Ttl(sc.config, p.id)
      case Some(ttl) => (Stored(cache, sc.maxSize, EntryFor(p, sc, i, ttl, v.data)), Turn(p, v, MISS))
      case None => (cache, Turn(p, Verdict(Spoiled, FAILED, v.data), MISS))
  }

  function Attempt(p: Provider, ext: Fields, cache: Cached, sc: Scene, i: nat): (Cached, Turn) {
    if sc.caching then
      var (looked, hit) := Fetched(cache, BuildKey(SlotFor(p, sc)), sc.w.readTime(i));
      if hit.Some? then (looked, HitTurn(p, hit.value)) else AfterMiss(p, ext, looked, sc, i)
    else AfterMiss(p, ext, cache, sc, i)
  }

  // ---- the loop ----

  datatype Progress = Progress(ext: Fields, cache: Cached, turns: seq<Turn>)

  function Advance(s: Progress, p: Provider, sc: Scene, i: nat): Progress {
    var (cache, turn) := Attempt(p, s.ext, s.cache, sc, i);
    Progress(Merged(s.ext, turn.provider.namespace, turn.verdict.data), cache, s.turns + [turn])
  }

  /** The loop's state before plan position `n`. */
  function After(plan: seq<Provider>, n: nat, start: Progress, sc: Scene): Progress
    requires n <= |plan|
  {
    if n == 0 then start.(turns := []) else Advance(After(plan, n - 1, start, sc), plan[n - 1], sc, n - 1)
  }

  function DiagnosticOf(t: Turn): Diagnostic {
    Diagnostic(t.provider.id, t.provider.version, t.verdict.status, t.cacheStatus == HIT)
  }

  function RecordOf(t: Turn, configVersion: string): Record {
    Record(t.provider.id, t.provider.version, t.provider.namespace, t.verdict.status, configVersion, t.cacheStatus)
  }

  /** One record per turn, but two for a spoiled one: its success and its failure. */
  function RecordsOf(t: Turn, configVersion: string): seq<Record> {
    (if t.verdict.tally == Spoiled then [RecordOf(t, configVersion).(status := SUCCESS)] else [])
        + [RecordOf(t, configVersion)]
  }

  function Records(ts: seq<Turn>, configVersion: string): seq<Record> {
    if ts == [] then [] else Records(ts[..|ts| - 1], configVersion) + RecordsOf(ts[|ts| - 1], configVersion)
  }

  function Count(ts: seq<Turn>, tally: Tally): nat {
    if ts == [] then 0
    else Count(ts[..|ts| - 1], tally) + if ts[|ts| - 1].verdict.tally == tally then 1 else 0
  }

  /** How many turns are counted twice. */
  function Twice(ts: seq<Turn>): nat {
    Count(ts, Spoiled) + Count(ts, Unrecorded)
  }

  lemma TurnsSnoc(ts: seq<Turn>, t: Turn, configVersion: string)
    ensures forall y :: Count(ts + [t], y) == Count(ts, y) + if t.verdict.tally == y then 1 else 0
    ensures Map(ts + [t], DiagnosticOf) == Map(ts, DiagnosticOf) + [DiagnosticOf(t)]
    ensures Records(ts + [t], configVersion) == Records(ts, configVersion) + RecordsOf(t, configVersion)
  {
    assert (ts + [t])[..|ts|] == ts;
  }

  /** What the loop accumulates: two lists and four counters. */
  datatype Totals = Totals(
    diagnostics: seq<Diagnostic>, records: seq<Record>, succeeded: nat, failed: nat, timedOut: nat, notFound: nat)
  {
    function Add(t: Turn, configVersion: string): Totals {
      var counted := match t.verdict.tally
        case Succeeded => this.(succeeded := succeeded + 1)
        case Failed => this.(failed := failed + 1)
        case TimedOut => this.(timedOut := timedOut + 1)
        case NotFound => this.(notFound := notFound + 1)
        case Spoiled => this.(succeeded := succeeded + 1, failed := failed + 1)
        case Unrecorded => this.(succeeded := succeeded + 1, failed := failed + 1);
      counted.(diagnostics := diagnostics + [DiagnosticOf(t)], records := records + RecordsOf(t, configVersion))
    }
  }

  /** The accumulated lists and counters agree with the turns taken. */
  ghost predicate Tallied(ts: seq<Turn>, configVersion: string, d: Totals) {
    && d.diagnostics == Map(ts, DiagnosticOf) && d.records == Records(ts, configVersion)
    && d.succeeded == Count(ts, Succeeded) + Twice(ts) && d.failed == Count(ts, Failed) + Twice(ts)
    && d.timedOut == Count(ts, TimedOut) && d.notFound == Count(ts, NotFound)
  }

  lemma TalliedSnoc(ts: seq<Turn>, t: Turn, configVersion: string, d: Totals)
    requires Tallied(ts, configVersion, d)
    ensures Tallied(ts + [t], configVersion, d.Add(t, configVersion))
  {
    TurnsSnoc(ts, t, configVersion);
  }

  /** The loop's variables stand for this progress. */
  ghost predicate Reached(c: Cached, working: Event, d: Totals, core: Core, s: Progress, configVersion: string) {
    c == s.cache && working == Event(core, s.ext) && Tallied(s.turns, configVersion, d)
  }

  lemma ReachedStart(plan: seq<Provider>, start: Progress, event: Event, sc: Scene)
    requires event.core == sc.core && start.ext == event.extensions
    ensures Reached(start.cache, event, Totals([], [], 0, 0, 0, 0), sc.core, After(plan, 0, start, sc),
            sc.config.version)
  {
  }

  /** What a round of the loop does to the cache and the extensions. */
  ghost predicate Took(
      before: Cached, after: Cached, working: Event, p: Provider, sc: Scene, i: nat, ext: Fields, turn: Turn) {
    && (after, turn) == Attempt(p, working.extensions, before, sc, i) && turn.provider == p
    && ext == Merged(working.extensions, p.namespace, turn.verdict.data)
  }

  lemma ReachedStep(
      c: Cached, c': Cached, working: Event, ext: Fields, d: Totals, turn: Turn,
      plan: seq<Provider>, i: nat, start: Progress, sc: Scene)
    requires i < |plan| && Reached(c, working, d, sc.core, After(plan, i, start, sc), sc.config.version)
    requires Took(c, c', working, plan[i], sc, i, ext, turn)
    ensures Reached(c', Event(working.core, ext), d.Add(turn, sc.config.version), sc.core,
                    After(plan, i + 1, start, sc), sc.config.version)
  {
    var s := After(plan, i, start, sc);
    TalliedSnoc(s.turns, turn, sc.config.version, d);
    assert After(plan, i + 1, start, sc) == Advance(s, plan[i], sc, i);
  }

  function OverallStatus(attempted: nat, succeeded: nat, failed: nat, timedOut: nat, notFound: nat): Status {
    if attempted == 0 then SKIPPED
    else if failed > 0 || timedOut > 0 then
      if succeeded > 0 then PARTIAL else if timedOut == attempted then TIMEOUT else FAILED
    else if succeeded > 0 then SUCCESS
    else if notFound > 0 then NOT_FOUND
    else SKIPPED
  }

  datatype Outcome = Outcome(
    event: Event, status: Status, provenance: seq<Record>, diagnostics: seq<Diagnostic>,
    attempted: nat, succeeded: nat, failed: nat, timedOut: nat, notFound: nat)

  /** The result assembled from what the loop did. */
  function OutcomeOf(s: Progress, sc: Scene): Outcome {
    var both, t, n := Twice(s.turns), Count(s.turns, TimedOut), Count(s.turns, NotFound);
    var a, f := Count(s.turns, Succeeded) + both, Count(s.turns, Failed) + both;
    var records := Records(s.turns, sc.config.version);
    Outcome(Event(sc.core, Attached(s.ext, Leaf(sc.w.render(records)))),
            OverallStatus(|s.turns|, a, f, t, n), records, Map(s.turns, DiagnosticOf), |s.turns|, a, f, t, n)
  }

  /** The result assembled from the loop's variables. */
  function Summary(d: Totals, event: Event, planned: nat): Outcome {
    Outcome(event, OverallStatus(planned, d.succeeded, d.failed, d.timedOut, d.notFound),
            d.records, d.diagnostics, planned, d.succeeded, d.failed, d.timedOut, d.notFound)
  }

  lemma OutcomeAgrees(s: Progress, sc: Scene, d: Totals, plan: seq<Provider>)
    requires Tallied(s.turns, sc.config.version, d) && |s.turns| == |plan|
    ensures Summary(d, Event(sc.core, Attached(s.ext, Leaf(sc.w.render(d.records)))), |plan|) == OutcomeOf(s, sc)
  {
  }

  /** The preservation check that ends the loop. */
  predicate Preserved(original: Core, candidate: Core) {
    && original.id == candidate.id && original.timestamp == candidate.timestamp
    && original.rawEventId == candidate.rawEventId && original.tenantId == candidate.tenantId
    && original.sourceIp == candidate.sourceIp && original.destinationIp == candidate.destinationIp
  }

  datatype Request = Request(event: Event, tenant: Option<TenantId>, configVersion: Option<string>, bypassCache: bool)

  /** The tenant the request runs as; `None` where the context cannot be built or does not match the event. */
  function TenantOf(r: Request): (t: Option<TenantId>)
    ensures t.Some? <==>
            ValidTenant(r.event.core.tenantId) && (r.tenant.Some? ==> r.tenant.value == r.event.core.tenantId)
    ensures t.Some? ==> t.value == r.event.core.tenantId
  {
    if !ValidTenant(r.event.core.tenantId) || (r.tenant.Some? && r.tenant.value != r.event.core.tenantId) then None
    else Some(r.event.core.tenantId)
  }

  function Resolved(configs: map<string, Managed>, active: string, r: Request): Config
    requires active in configs
  {
    if r.configVersion.Some? && r.configVersion.value != "" && r.configVersion.value in configs
    then configs[r.configVersion.value].config
    else configs[active].config
  }

  class Engine {
    const registry: Registry
    const manager: ConfigurationManager
    const cache: MemoryLRUCache?

    constructor (registry: Registry, manager: ConfigurationManager, cache: MemoryLRUCache?)
      ensures this.registry == registry && this.manager == manager && this.cache == cache
    {
      this.registry, this.manager, this.cache := registry, manager, cache;
    }

    ghost function Contents(): Cached
      reads cache
    {
      if cache == null then OrderedDict([], map[]) else cache.entries
    }

    ghost function Start(ext: Fields): Progress
      reads cache
    {
      Progress(ext, Contents(), [])
    }

    ghost predicate Ready()
      reads cache
    {
      cache != null ==> cache.Valid()
    }

    ghost function SceneOf(core: Core, tenant: string, config: Config, bypass: bool, w: World): Scene {
      Scene(core, tenant, config, cache != null && config.cacheEnabled && !bypass,
            if cache == null then 0 else cache.maxSize, w)
    }

    ghost function SceneFor(r: Request, w: World): Scene
      requires manager.Valid() && TenantOf(r).Some?
      reads manager
    {
      var config := Resolved(manager.configs, manager.activeVersion, r);
      SceneOf(r.event.core, TenantOf(r).value, config, r.bypassCache, w)
    }

    /** The end of the loop for a request, from a given start. */
    ghost function End(r: Request, o: Oracles, w: World, start: Progress): Progress
      requires manager.Valid() && TenantOf(r).Some?
      reads manager
    {
      var sc := SceneFor(r, w);
      var plan := Plan(registry, sc.config, r.event, sc.tenant, o);
      After(plan, |plan|, start, sc)
    }

    /**
     The whole of `process` but for sealing the event: `None` exactly where the
     tenant guard raises; the preservation check never does.
     */
    method Enrich(r: Request, o: Oracles, w: World) returns (result: Option<Outcome>)
      requires manager.Valid() && Ready()
      modifies cache
      ensures manager.Valid() && Ready()
      ensures result.Some? <==> TenantOf(r).Some?
      ensures result.None? ==> Contents() == old(Contents())
      ensures result.Some? ==>
        var end := End(r, o, w, old(Start(r.event.extensions)));
        result.value == OutcomeOf(end, SceneFor(r, w)) && Contents() == end.cache
    {
      var config := manager.configs[manager.activeVersion].config;
      if r.configVersion.Some? && r.configVersion.value != "" && r.configVersion.value in manager.configs {
        config := manager.configs[r.configVersion.value].config;
      }
      if !ValidTenant(r.event.core.tenantId) || (r.tenant.Some? && r.tenant.value != r.event.core.tenantId) {
        return None;
      }
      ghost var sc := SceneFor(r, w);
      var tenant := r.event.core.tenantId;
      var plan := PlanExecution(registry, config, r.event, tenant, o);
      ghost var start := Start(r.event.extensions);
      var working, d := Execute(plan, r.event, tenant, config, r.bypassCache, w, sc);
      assert Preserved(r.event.core, working.core);
      TurnsFollowPlan(plan, |plan|, start, sc);
      var ext := AttachProvenance(working.extensions, Leaf(w.render(d.records)));
      OutcomeAgrees(After(plan, |plan|, start, sc), sc, d, plan);
      result := Some(Summary(d, Event(working.core, ext), |plan|));
    }

    /** The loop's variables before plan position `i`. */
    ghost predicate InLoop(plan: seq<Provider>, i: nat, start: Progress, sc: Scene, working: Event, d: Totals)
      reads cache
    {
      && i <= |plan| && Ready() && working.core == sc.core
      && Reached(Contents(), working, d, sc.core, After(plan, i, start, sc), sc.config.version)
    }

    /** The provider loop. */
    method Execute(
        plan: seq<Provider>, event: Event, tenant: string, config: Config, bypass: bool, w: World, ghost sc: Scene)
      returns (working: Event, d: Totals)
      requires Ready() && sc == SceneOf(event.core, tenant, config, bypass, w)
      modifies cache
      ensures InLoop(plan, |plan|, old(Start(event.extensions)), sc, working, d)
    {
      working, d := event, Totals([], [], 0, 0, 0, 0);
      ghost var start := Start(event.extensions);
      ReachedStart(plan, start, event, sc);
      var i := 0;
      while i < |plan|
        invariant i <= |plan|
        invariant InLoop(plan, i, start, sc, working, d)
      {
        working, d := Round(plan, i, working, d, tenant, config, bypass, w, sc, start);
        i := i + 1;
      }
    }

    method Round(
        plan: seq<Provider>, i: nat, working: Event, d: Totals, tenant: string, config: Config, bypass: bool, w: World,
        ghost sc: Scene, ghost start: Progress)
      returns (working': Event, d': Totals)
      requires i < |plan| && InLoop(plan, i, start, sc, working, d)
      requires sc == SceneOf(sc.core, tenant, config, bypass, w)
      modifies cache
      ensures InLoop(plan, i + 1, start, sc, working', d')
    {
      ghost var before := Contents();
      var ext, turn := TakeTurn(plan[i], working, tenant, config, bypass, w, i, sc);
      ReachedStep(before, Contents(), working, ext, d, turn, plan, i, start, sc);
      working', d' := Event(working.core, ext), d.Add(turn, config.version);
    }

    /** One round of the loop: cache lookup, provider call, merge, cache fill. */
    method TakeTurn(
        p: Provider, working: Event, tenant: string, config: Config, bypass: bool, w: World, i: nat, ghost sc: Scene)
      returns (ext: Fields, turn: Turn)
      requires Ready() && sc == SceneOf(working.core, tenant, config, bypass, w)
      modifies cache
      ensures Ready()
      ensures Took(old(Contents()), Contents(), working, p, sc, i, ext, turn)
    {
      var slot := Slot(tenant, p.id, p.namespace, LookupKey(working.core, p), !p.tenantSensitive);
      var caching := cache != null && config.cacheEnabled && !bypass;
      if caching {
        var hit := cache.Get(slot, w.readTime(i));
        if hit.Some? {
          ext := MergeOutput(working.extensions, p.namespace, hit.value.data);
          turn := Turn(p, Verdict(Succeeded, SUCCESS, hit.value.data), HIT);
          return;
        }
      }
      ext := working.extensions;
      var call := w.enrich(p, working, tenant, i);
      match call
      case RaisedTimeout => turn := Turn(p, Verdict(TimedOut, TIMEOUT, map[]), MISS);
      case RaisedOther => turn := Turn(p, Verdict(Failed, FAILED, map[]), MISS);
      case Returned(output) =>
        if output.status == SUCCESS {
          if ValidOutput(output.data) {
            ext := MergeOutput(ext, p.namespace, output.data);
            turn := Turn(p, Verdict(Succeeded, SUCCESS, output.data), if caching then MISS else BYPASS);
            if !Recordable(output.confidence) {
              // the success is counted already when recording it raises
              turn := Turn(p, Verdict(Unrecorded, FAILED, output.data), MISS);
            } else if caching {
              var ttl := if p.id in config.timeouts then ToInt(config.timeouts[p.id]) else Some(config.cacheTtl);
              if ttl.Some? {
                cache.Set(slot, output.data, ttl.value, w.writeTime(i));
              } else {
                // the success is counted and recorded already when `int()` raises
                turn := Turn(p, Verdict(Spoiled, FAILED, output.data), MISS);
              }
            }
          } else {
            turn := Turn(p, Verdict(Failed, FAILED, map[]), MISS);
          }
        } else if output.status == NOT_FOUND {
          turn := Turn(p, Verdict(NotFound, NOT_FOUND, map[]), MISS);
        } else {
          turn := Turn(p, Verdict(Failed, output.status, map[]), MISS);
        }
    }
  }

  /**
   What a request runs with: its tenant, the configuration it asks for if that is
   registered and else the active one, and the cache unless it is off or bypassed.
   */
  lemma SceneExactly(e: Engine, r: Request, w: World)
    requires e.manager.Valid() && TenantOf(r).Some?
    ensures var sc := e.SceneFor(r, w);
            && sc.core == r.event.core && sc.tenant == r.event.core.tenantId
            && sc.config.version ==
               (if r.configVersion.Some? && r.configVersion.value in e.manager.configs
                then r.configVersion.value else e.manager.activeVersion)
            && (sc.caching <==> e.cache != null && sc.config.cacheEnabled && !r.bypassCache)
            && (e.cache != null ==> sc.maxSize == e.cache.maxSize)
  {
  }

  /** Where the cache is off, the loop leaves it alone and reports no hit. */
  lemma {:induction false} UncachedKeeps(plan: seq<Provider>, n: nat, start: Progress, sc: Scene)
    requires n <= |plan| && !sc.caching
    ensures After(plan, n, start, sc).cache == start.cache
    ensures forall i :: 0 <= i < |After(plan, n, start, sc).turns| ==>
              After(plan, n, start, sc).turns[i].cacheStatus != HIT
  {
    if n > 0 {
      UncachedKeeps(plan, n - 1, start, sc);
    }
  }

  ghost predicate NameVersion(records: seq<Record>, version: string) {
    forall i :: 0 <= i < |records| ==> records[i].configVersion == version
  }

  /** Every provenance record names the configuration the request ran with. */
  lemma {:induction false} RecordsNameVersion(ts: seq<Turn>, version: string)
    ensures NameVersion(Records(ts, version), version)
  {
    if ts != [] {
      RecordsNameVersion(ts[..|ts| - 1], version);
    }
  }

  // ---- accounting ----

  /** Successes and misses are exactly the attempts whose status says so. */
  predicate Consistent(v: Verdict) {
    && (v.tally == Succeeded <==> v.status == SUCCESS)
    && (v.tally == NotFound <==> v.status == NOT_FOUND)
    && (v.tally == TimedOut ==> v.status == TIMEOUT)
    && (v.tally == Spoiled || v.tally == Unrecorded ==> v.status == FAILED)
    && (v.tally !in {Succeeded, Spoiled, Unrecorded} ==> v.data == map[])
  }

  lemma AttemptConsistent(p: Provider, ext: Fields, cache: Cached, sc: Scene, i: nat)
    ensures Attempt(p, ext, cache, sc, i).1.provider == p && Consistent(Attempt(p, ext, cache, sc, i).1.verdict)
  {
    SettleConsistent(sc.w.enrich(p, Event(sc.core, ext), sc.tenant, i));
  }

  lemma SettleConsistent(call: Call)
    ensures Consistent(Settle(call))
  {
  }

  lemma AdvanceStep(s: Progress, s': Progress, p: Provider, sc: Scene, i: nat) returns (turn: Turn)
    requires s' == Advance(s, p, sc, i)
    ensures (s'.cache, turn) == Attempt(p, s.ext, s.cache, sc, i)
    ensures turn.provider == p && Consistent(turn.verdict)
    ensures s'.turns == s.turns + [turn] && s'.ext == Merged(s.ext, turn.provider.namespace, turn.verdict.data)
  {
    turn := Attempt(p, s.ext, s.cache, sc, i).1;
    AttemptConsistent(p, s.ext, s.cache, sc, i);
  }

  lemma AfterStep(plan: seq<Provider>, n: nat, start: Progress, sc: Scene) returns (s: Progress, turn: Turn)
    requires 0 < n <= |plan|
    ensures s == After(plan, n - 1, start, sc)
    ensures (After(plan, n, start, sc).cache, turn) == Attempt(plan[n - 1], s.ext, s.cache, sc, n - 1)
    ensures turn.provider == plan[n - 1] && Consistent(turn.verdict)
    ensures After(plan, n, start, sc).turns == s.turns + [turn]
    ensures After(plan, n, start, sc).ext == Merged(s.ext, turn.provider.namespace, turn.verdict.data)
  {
    s := After(plan, n - 1, start, sc);
    turn := AdvanceStep(s, After(plan, n, start, sc), plan[n - 1], sc, n - 1);
  }

  /** One turn per planned provider, in plan order. */
  ghost predicate Follows(ts: seq<Turn>, plan: seq<Provider>) {
    |ts| == |plan| && forall k :: 0 <= k < |ts| ==> ts[k].provider == plan[k] && Consistent(ts[k].verdict)
  }

  lemma FollowsSnoc(ts: seq<Turn>, plan: seq<Provider>, t: Turn)
    requires plan != [] && Follows(ts, plan[..|plan| - 1]) && t.provider == plan[|plan| - 1] && Consistent(t.verdict)
    ensures Follows(ts + [t], plan)
  {
  }

  lemma {:induction false} TurnsFollowPlan(plan: seq<Provider>, n: nat, start: Progress, sc: Scene)
    requires n <= |plan|
    ensures Follows(After(plan, n, start, sc).turns, plan[..n])
  {
    if n > 0 {
      TurnsFollowPlan(plan, n - 1, start, sc);
      var s, turn := AfterStep(plan, n, start, sc);
      assert plan[..n][..n - 1] == plan[..n - 1];
      FollowsSnoc(s.turns, plan[..n], turn);
    }
  }

  lemma {:induction false} CountsAddUp(ts: seq<Turn>)
    ensures Count(ts, Succeeded) + Count(ts, Failed) + Count(ts, TimedOut) + Count(ts, NotFound)
            + Twice(ts) == |ts|
  {
    if ts != [] {
      CountsAddUp(ts[..|ts| - 1]);
    }
  }

  lemma {:induction false} CountPositive(ts: seq<Turn>, y: Tally)
    ensures Count(ts, y) > 0 <==> exists i :: 0 <= i < |ts| && ts[i].verdict.tally == y
    ensures Count(ts, y) == |ts| <==> forall i :: 0 <= i < |ts| ==> ts[i].verdict.tally == y
    ensures Count(ts, y) <= |ts|
  {
    if ts != [] {
      var front := ts[..|ts| - 1];
      CountPositive(front, y);
      assert forall i :: 0 <= i < |front| ==> ts[i] == front[i];
    }
  }

  // ---- what happens at one position of the plan ----

  lemma {:induction false} TurnAt(plan: seq<Provider>, i: nat, n: nat, start: Progress, sc: Scene)
    requires i < n <= |plan|
    ensures var s := After(plan, i, start, sc);
            |After(plan, n, start, sc).turns| == n &&
            After(plan, n, start, sc).turns[i] == Attempt(plan[i], s.ext, s.cache, sc, i).1
    decreases n
  {
    TurnsFollowPlan(plan, n - 1, start, sc);
    var s, turn := AfterStep(plan, n, start, sc);
    if i < n - 1 {
      TurnAt(plan, i, n - 1, start, sc);
    }
  }

  /** The cache, if it is used, has no live entry for the provider. */
  predicate Missed(p: Provider, cache: Cached, sc: Scene, i: nat) {
    sc.caching ==> Fetched(cache, BuildKey(SlotFor(p, sc)), sc.w.readTime(i)).1.None?
  }

  /** The provider is called and raises a timeout. */
  predicate TimesOut(p: Provider, s: Progress, sc: Scene, i: nat) {
    Missed(p, s.cache, sc, i) && sc.w.enrich(p, Event(sc.core, s.ext), sc.tenant, i) == RaisedTimeout
  }

  /** The provider is called and succeeds while caching, but its configured timeout is not finite. */
  predicate Spoils(p: Provider, s: Progress, sc: Scene, i: nat) {
    && sc.caching && Missed(p, s.cache, sc, i) && Asked(p, s.ext, sc, i).tally == Succeeded
    && Ttl(sc.config, p.id).None?
  }

  /** The provider is called and succeeds, but with a confidence that cannot be recorded. */
  predicate LacksRecord(p: Provider, s: Progress, sc: Scene, i: nat) {
    && Missed(p, s.cache, sc, i)
    && var call := sc.w.enrich(p, Event(sc.core, s.ext), sc.tenant, i);
       && call.Returned? && call.output.status == SUCCESS && ValidOutput(call.output.data)
       && !Recordable(call.output.confidence)
  }

  predicate TimesOutAt(plan: seq<Provider>, i: nat, start: Progress, sc: Scene) {
    i < |plan| && TimesOut(plan[i], After(plan, i, start, sc), sc, i)
  }

  predicate SpoilsAt(plan: seq<Provider>, i: nat, start: Progress, sc: Scene) {
    i < |plan| && Spoils(plan[i], After(plan, i, start, sc), sc, i)
  }

  predicate LacksRecordAt(plan: seq<Provider>, i: nat, start: Progress, sc: Scene) {
    i < |plan| && LacksRecord(plan[i], After(plan, i, start, sc), sc, i)
  }

  lemma TallyMeans(p: Provider, s: Progress, sc: Scene, i: nat)
    ensures var y := Attempt(p, s.ext, s.cache, sc, i).1.verdict.tally;
            && (y == TimedOut <==> TimesOut(p, s, sc, i)) && (y == Spoiled <==> Spoils(p, s, sc, i))
            && (y == Unrecorded <==> LacksRecord(p, s, sc, i))
  {
  }

  /** What the tallies of a run's turns say about its calls. */
  ghost predicate Explains(ts: seq<Turn>, plan: seq<Provider>, start: Progress, sc: Scene) {
    && Follows(ts, plan)
    && forall i :: 0 <= i < |ts| ==>
         && (ts[i].verdict.tally == TimedOut <==> TimesOutAt(plan, i, start, sc))
         && (ts[i].verdict.tally == Spoiled <==> SpoilsAt(plan, i, start, sc))
         && (ts[i].verdict.tally == Unrecorded <==> LacksRecordAt(plan, i, start, sc))
  }

  lemma TurnsExplain(plan: seq<Provider>, start: Progress, sc: Scene)
    ensures Explains(After(plan, |plan|, start, sc).turns, plan, start, sc)
  {
    var ts := After(plan, |plan|, start, sc).turns;
    TurnsFollowPlan(plan, |plan|, start, sc);
    assert plan[..|plan|] == plan;
    forall i | 0 <= i < |ts|
      ensures ts[i].verdict.tally == TimedOut <==> TimesOutAt(plan, i, start, sc)
      ensures ts[i].verdict.tally == Spoiled <==> SpoilsAt(plan, i, start, sc)
      ensures ts[i].verdict.tally == Unrecorded <==> LacksRecordAt(plan, i, start, sc)
    {
      TurnAt(plan, i, |plan|, start, sc);
      TallyMeans(plan[i], After(plan, i, start, sc), sc, i);
    }
  }

  // ---- counters, diagnostics and provenance ----

  /** Counters add up, and diagnostics and provenance match the plan one to one with equal statuses. */
  ghost predicate Balanced(r: Outcome, plan: seq<Provider>) {
    && r.succeeded + r.failed + r.timedOut + r.notFound == r.attempted == |plan|
    && |r.diagnostics| == |r.provenance| == |plan|
    && forall i :: 0 <= i < |plan| ==>
         && r.diagnostics[i].provider == r.provenance[i].provider == plan[i].id
         && r.provenance[i].namespace == plan[i].namespace
         && r.diagnostics[i].status == r.provenance[i].status
         && r.diagnostics[i].cached == r.provenance[i].cacheStatus.HIT?
  }

  lemma {:induction false} RecordsMatch(ts: seq<Turn>, configVersion: string)
    ensures |Records(ts, configVersion)| == |ts| + Count(ts, Spoiled)
    ensures Count(ts, Spoiled) == 0 ==>
              forall i :: 0 <= i < |ts| ==> Records(ts, configVersion)[i] == RecordOf(ts[i], configVersion)
  {
    if ts != [] {
      RecordsMatch(ts[..|ts| - 1], configVersion);
    }
  }

  lemma BalancedExactly(s: Progress, sc: Scene, plan: seq<Provider>)
    requires Follows(s.turns, plan)
    ensures Balanced(OutcomeOf(s, sc), plan) <==> Twice(s.turns) == 0
  {
    CountsAddUp(s.turns);
    RecordsMatch(s.turns, sc.config.version);
  }

  /**
   One diagnostic per planned provider; a turn that is counted twice adds one to
   the counters, and a spoiled one adds a record.
   */
  ghost predicate SurplusOf(s: Progress, sc: Scene, plan: seq<Provider>) {
    var r := OutcomeOf(s, sc);
    && r.succeeded + r.failed + r.timedOut + r.notFound == |plan| + Twice(s.turns)
    && |r.provenance| == |plan| + Count(s.turns, Spoiled)
    && r.attempted == |r.diagnostics| == |plan|
    && forall i :: 0 <= i < |plan| ==> r.diagnostics[i].provider == plan[i].id
  }

  lemma Surplus(plan: seq<Provider>, start: Progress, sc: Scene)
    ensures SurplusOf(After(plan, |plan|, start, sc), sc, plan)
  {
    TurnsExplain(plan, start, sc);
    TurnsMakeSurplus(After(plan, |plan|, start, sc), sc, plan);
  }

  lemma TurnsMakeSurplus(s: Progress, sc: Scene, plan: seq<Provider>)
    requires Follows(s.turns, plan)
    ensures SurplusOf(s, sc, plan)
  {
    CountsAddUp(s.turns);
    RecordsMatch(s.turns, sc.config.version);
  }

  /** A success at position `i` is counted twice, for either reason. */
  predicate CountsTwiceAt(plan: seq<Provider>, i: nat, start: Progress, sc: Scene) {
    SpoilsAt(plan, i, start, sc) || LacksRecordAt(plan, i, start, sc)
  }

  ghost predicate NoneCountsTwice(plan: seq<Provider>, start: Progress, sc: Scene) {
    forall i :: 0 <= i < |plan| ==> !CountsTwiceAt(plan, i, start, sc)
  }

  /**
   The books balance exactly when no success has a confidence outside [0, 1], and
   none comes from a provider with a non-finite timeout while caching.
   */
  lemma Accounting(plan: seq<Provider>, start: Progress, sc: Scene)
    ensures Balanced(OutcomeOf(After(plan, |plan|, start, sc), sc), plan) <==> NoneCountsTwice(plan, start, sc)
  {
    TurnsExplain(plan, start, sc);
    TurnsAccount(After(plan, |plan|, start, sc), plan, start, sc);
  }

  lemma TurnsAccount(s: Progress, plan: seq<Provider>, start: Progress, sc: Scene)
    requires Explains(s.turns, plan, start, sc)
    ensures Balanced(OutcomeOf(s, sc), plan) <==> NoneCountsTwice(plan, start, sc)
  {
    TwiceShows(s.turns, plan, start, sc);
    BalancedExactly(s, sc, plan);
  }

  lemma TwiceShows(ts: seq<Turn>, plan: seq<Provider>, start: Progress, sc: Scene)
    requires Explains(ts, plan, start, sc)
    ensures Twice(ts) == 0 <==> NoneCountsTwice(plan, start, sc)
  {
    CountedAs(ts, Spoiled);
    CountedAs(ts, Unrecorded);
    CallsShow(ts, plan, start, sc);
  }

  /**
   Every answer carries a confidence that can be recorded, and no provider has a
   non-finite timeout while caching.
   */
  ghost predicate Orderly(plan: seq<Provider>, sc: Scene) {
    && (sc.caching ==> forall k :: 0 <= k < |plan| ==> Ttl(sc.config, plan[k].id).Some?)
    && (forall k, e, tenant, i :: 0 <= k < |plan| && sc.w.enrich(plan[k], e, tenant, i).Returned? ==>
         Recordable(sc.w.enrich(plan[k], e, tenant, i).output.confidence))
  }

  /** That is enough for the books to balance, whatever else the providers do. */
  lemma FiniteTimeoutsBalance(plan: seq<Provider>, start: Progress, sc: Scene)
    requires Orderly(plan, sc)
    ensures Balanced(OutcomeOf(After(plan, |plan|, start, sc), sc), plan)
  {
    forall i | 0 <= i < |plan| ensures !CountsTwiceAt(plan, i, start, sc) {
      OrderlyCountsOnce(plan, i, After(plan, i, start, sc), sc);
    }
    Accounting(plan, start, sc);
  }

  lemma OrderlyCountsOnce(plan: seq<Provider>, i: nat, s: Progress, sc: Scene)
    requires Orderly(plan, sc) && i < |plan|
    ensures !Spoils(plan[i], s, sc, i) && !LacksRecord(plan[i], s, sc, i)
  {
  }

  /**
   One provider that answers with a confidence outside [0, 1]: two counts, one
   FAILED record and diagnostic, and its data merged, caching or not.
   */
  lemma UnrecordedCountsTwice(p: Provider, data: Fields, confidence: Float, ext: Fields, sc: Scene)
    requires !Recordable(confidence) && ValidOutput(data)
    requires forall e, t, i :: sc.w.enrich(p, e, t, i) == Returned(Output(SUCCESS, data, confidence))
    ensures var s := After([p], 1, Progress(ext, OrderedDict([], map[]), []), sc);
            var r := OutcomeOf(s, sc);
            && r.attempted == 1 && r.succeeded == 1 && r.failed == 1 && |r.provenance| == 1
            && r.diagnostics == [Diagnostic(p.id, p.version, FAILED, false)] && r.status == PARTIAL
            && s.ext == Merged(ext, p.namespace, data)
  {
    var start := Progress(ext, OrderedDict([], map[]), []);
    var s, turn := AfterStep([p], 1, start, sc);
    assert s == start;
    UnrecordedTurn(p, data, confidence, start, sc);
    UnrecordedOutcome(After([p], 1, start, sc), turn, sc);
  }

  lemma UnrecordedTurn(p: Provider, data: Fields, confidence: Float, s: Progress, sc: Scene)
    requires s.cache == OrderedDict([], map[]) && !Recordable(confidence) && ValidOutput(data)
    requires sc.w.enrich(p, Event(sc.core, s.ext), sc.tenant, 0) == Returned(Output(SUCCESS, data, confidence))
    ensures Attempt(p, s.ext, s.cache, sc, 0).1 == Turn(p, Verdict(Unrecorded, FAILED, data), MISS)
  {
  }

  lemma UnrecordedOutcome(s: Progress, turn: Turn, sc: Scene)
    requires s.turns == [turn] && turn.verdict.tally == Unrecorded && turn.verdict.status == FAILED
    requires turn.cacheStatus == MISS
    ensures var r := OutcomeOf(s, sc);
            && r.attempted == 1 && r.succeeded == 1 && r.failed == 1 && |r.provenance| == 1 && r.status == PARTIAL
            && r.diagnostics == [Diagnostic(turn.provider.id, turn.provider.version, FAILED, false)]
  {
    TurnsSnoc([], turn, sc.config.version);
    assert [] + [turn] == [turn];
  }

  /**
   One provider with an infinite timeout that succeeds while caching: two counts,
   two records, one FAILED diagnostic.
   */
  lemma InfiniteTimeoutCountsTwice(p: Provider, data: Fields, confidence: Float, ext: Fields, sc: Scene)
    requires sc.caching && p.id in sc.config.timeouts && sc.config.timeouts[p.id].Infinite? && ValidOutput(data)
    requires Recordable(confidence)
    requires forall e, t, i :: sc.w.enrich(p, e, t, i) == Returned(Output(SUCCESS, data, confidence))
    ensures var r := OutcomeOf(After([p], 1, Progress(ext, OrderedDict([], map[]), []), sc), sc);
            && r.attempted == 1 && r.succeeded == 1 && r.failed == 1 && |r.provenance| == 2
            && r.provenance[0].status == SUCCESS && r.provenance[1].status == FAILED
            && r.diagnostics == [Diagnostic(p.id, p.version, FAILED, false)] && r.status == PARTIAL
  {
    var start := Progress(ext, OrderedDict([], map[]), []);
    var s, turn := AfterStep([p], 1, start, sc);
    assert s == start;
    SpoiledTurn(p, data, confidence, start, sc);
    SpoiledOutcome(After([p], 1, start, sc), turn, sc);
  }

  lemma SpoiledTurn(p: Provider, data: Fields, confidence: Float, s: Progress, sc: Scene)
    requires sc.caching && s.cache == OrderedDict([], map[]) && Ttl(sc.config, p.id).None? && ValidOutput(data)
    requires Recordable(confidence)
    requires sc.w.enrich(p, Event(sc.core, s.ext), sc.tenant, 0) == Returned(Output(SUCCESS, data, confidence))
    ensures Attempt(p, s.ext, s.cache, sc, 0).1 == Turn(p, Verdict(Spoiled, FAILED, data), MISS)
  {
  }

  lemma SpoiledOutcome(s: Progress, turn: Turn, sc: Scene)
    requires s.turns == [turn] && turn.verdict.tally == Spoiled && turn.verdict.status == FAILED
    requires turn.cacheStatus == MISS
    ensures var r := OutcomeOf(s, sc);
            && r.attempted == 1 && r.succeeded == 1 && r.failed == 1 && |r.provenance| == 2 && r.status == PARTIAL
            && r.provenance[0].status == SUCCESS && r.provenance[1].status == FAILED
            && r.diagnostics == [Diagnostic(turn.provider.id, turn.provider.version, FAILED, false)]
  {
    TurnsSnoc([], turn, sc.config.version);
    assert [] + [turn] == [turn];
  }

  // ---- the overall status ----

  predicate Good(s: Status) {
    s == SUCCESS || s == NOT_FOUND
  }

  ghost predicate Has(ts: seq<Turn>, y: Tally) {
    exists i :: 0 <= i < |ts| && ts[i].verdict.tally == y
  }

  ghost predicate HasTwice(ts: seq<Turn>) {
    Has(ts, Spoiled) || Has(ts, Unrecorded)
  }

  ghost predicate AllAre(ts: seq<Turn>, y: Tally) {
    ts != [] && forall i :: 0 <= i < |ts| ==> ts[i].verdict.tally == y
  }

  /** The overall status in terms of the turns' tallies. */
  ghost predicate TallyReads(status: Status, ts: seq<Turn>) {
    && (status == SKIPPED <==> ts == [])
    && (status == NOT_FOUND <==> AllAre(ts, NotFound))
    && (status == SUCCESS <==> Has(ts, Succeeded) && !HasTwice(ts) && !Has(ts, Failed) && !Has(ts, TimedOut))
    && (status == PARTIAL <==> HasTwice(ts) || (Has(ts, Succeeded) && (Has(ts, Failed) || Has(ts, TimedOut))))
    && (status == TIMEOUT <==> AllAre(ts, TimedOut))
    && (status == FAILED <==>
         && !Has(ts, Succeeded) && !HasTwice(ts) && (Has(ts, Failed) || Has(ts, TimedOut)) && !AllAre(ts, TimedOut))
  }

  lemma CountedAs(ts: seq<Turn>, y: Tally)
    ensures (Count(ts, y) > 0 <==> Has(ts, y)) && (ts != [] && Count(ts, y) == |ts| <==> AllAre(ts, y))
  {
    CountPositive(ts, y);
  }

  lemma OutcomeReads(s: Progress, sc: Scene)
    ensures TallyReads(OutcomeOf(s, sc).status, s.turns)
  {
    CountsAddUp(s.turns);
    CountedAs(s.turns, Succeeded);
    CountedAs(s.turns, Failed);
    CountedAs(s.turns, TimedOut);
    CountedAs(s.turns, NotFound);
    CountedAs(s.turns, Spoiled);
    CountedAs(s.turns, Unrecorded);
  }

  ghost predicate SomeDiagnostic(r: Outcome, status: Status) {
    exists i :: 0 <= i < |r.diagnostics| && r.diagnostics[i].status == status
  }

  ghost predicate SomeBad(r: Outcome) {
    exists i :: 0 <= i < |r.diagnostics| && !Good(r.diagnostics[i].status)
  }

  ghost predicate AllTimeOut(plan: seq<Provider>, start: Progress, sc: Scene) {
    plan != [] && forall i :: 0 <= i < |plan| ==> TimesOutAt(plan, i, start, sc)
  }

  /**
   Each overall status read off the diagnostics, except that TIMEOUT means that
   every planned call raised a timeout, and that a success counted twice makes PARTIAL.
   */
  ghost predicate StatusReads(r: Outcome, plan: seq<Provider>, start: Progress, sc: Scene) {
    && (r.status == SKIPPED <==> plan == [])
    && (r.status == NOT_FOUND <==> plan != [] && forall i :: 0 <= i < |r.diagnostics| ==>
        r.diagnostics[i].status == NOT_FOUND)
    && (r.status == SUCCESS <==> SomeDiagnostic(r, SUCCESS) && !SomeBad(r))
    && (r.status == PARTIAL <==> !NoneCountsTwice(plan, start, sc) || (SomeDiagnostic(r, SUCCESS) && SomeBad(r)))
    && (r.status == TIMEOUT <==> AllTimeOut(plan, start, sc))
    && (r.status == FAILED <==>
         SomeBad(r) && !SomeDiagnostic(r, SUCCESS) && NoneCountsTwice(plan, start, sc) && !AllTimeOut(plan, start, sc))
  }

  lemma DiagnosticsShow(ts: seq<Turn>, r: Outcome, plan: seq<Provider>)
    requires Follows(ts, plan) && r.diagnostics == Map(ts, DiagnosticOf)
    ensures SomeDiagnostic(r, SUCCESS) <==> Has(ts, Succeeded)
    ensures SomeBad(r) <==> Has(ts, Failed) || Has(ts, TimedOut) || HasTwice(ts)
    ensures (plan != [] && forall i :: 0 <= i < |r.diagnostics| ==> r.diagnostics[i].status == NOT_FOUND) <==>
            AllAre(ts, NotFound)
  {
    assert forall i :: 0 <= i < |ts| ==> r.diagnostics[i].status == ts[i].verdict.status && Consistent(ts[i].verdict);
  }

  /** A tally that marks exactly the positions of a kind occurs if there is such a position, and is all if all are. */
  lemma MarksShow(ts: seq<Turn>, y: Tally, kind: nat -> bool)
    requires forall i: nat :: i < |ts| ==> (ts[i].verdict.tally == y <==> kind(i))
    ensures Has(ts, y) <==> exists i: nat :: i < |ts| && kind(i)
    ensures AllAre(ts, y) <==> ts != [] && forall i: nat :: i < |ts| ==> kind(i)
  {
  }

  ghost function TimesOutIn(plan: seq<Provider>, start: Progress, sc: Scene): nat -> bool {
    (i: nat) => TimesOutAt(plan, i, start, sc)
  }

  ghost function SpoilsIn(plan: seq<Provider>, start: Progress, sc: Scene): nat -> bool {
    (i: nat) => SpoilsAt(plan, i, start, sc)
  }

  ghost function LacksRecordIn(plan: seq<Provider>, start: Progress, sc: Scene): nat -> bool {
    (i: nat) => LacksRecordAt(plan, i, start, sc)
  }

  lemma TimeoutsShow(ts: seq<Turn>, plan: seq<Provider>, start: Progress, sc: Scene)
    requires Explains(ts, plan, start, sc)
    ensures AllTimeOut(plan, start, sc) <==> AllAre(ts, TimedOut)
  {
    MarksShow(ts, TimedOut, TimesOutIn(plan, start, sc));
    assert forall i: nat :: i < |plan| ==> (TimesOutAt(plan, i, start, sc) <==> TimesOutIn(plan, start, sc)(i));
  }

  lemma CountsTwiceIn(plan: seq<Provider>, start: Progress, sc: Scene)
    ensures NoneCountsTwice(plan, start, sc) <==>
            forall i: nat :: i < |plan| ==> !SpoilsIn(plan, start, sc)(i) && !LacksRecordIn(plan, start, sc)(i)
  {
    assert forall i: nat :: i < |plan| ==>
      (CountsTwiceAt(plan, i, start, sc) <==> SpoilsIn(plan, start, sc)(i) || LacksRecordIn(plan, start, sc)(i));
  }

  lemma DoublesShow(ts: seq<Turn>, plan: seq<Provider>, start: Progress, sc: Scene)
    requires Explains(ts, plan, start, sc)
    ensures NoneCountsTwice(plan, start, sc) <==> !HasTwice(ts)
  {
    MarksShow(ts, Spoiled, SpoilsIn(plan, start, sc));
    MarksShow(ts, Unrecorded, LacksRecordIn(plan, start, sc));
    CountsTwiceIn(plan, start, sc);
  }

  lemma CallsShow(ts: seq<Turn>, plan: seq<Provider>, start: Progress, sc: Scene)
    requires Explains(ts, plan, start, sc)
    ensures NoneCountsTwice(plan, start, sc) <==> !HasTwice(ts)
    ensures AllTimeOut(plan, start, sc) <==> AllAre(ts, TimedOut)
  {
    DoublesShow(ts, plan, start, sc);
    TimeoutsShow(ts, plan, start, sc);
  }

  lemma StatusMeaning(plan: seq<Provider>, start: Progress, sc: Scene)
    ensures StatusReads(OutcomeOf(After(plan, |plan|, start, sc), sc), plan, start, sc)
  {
    var s := After(plan, |plan|, start, sc);
    var r := OutcomeOf(s, sc);
    TurnsExplain(plan, start, sc);
    OutcomeReads(s, sc);
    DiagnosticsShow(s.turns, r, plan);
    CallsShow(s.turns, plan, start, sc);
  }

  ghost predicate AllSay(r: Outcome, status: Status) {
    r.diagnostics != [] && forall i :: 0 <= i < |r.diagnostics| ==> r.diagnostics[i].status == status
  }

  /**
   When every diagnostic says TIMEOUT the run is TIMEOUT exactly if every call
   raised it; a provider that returned that status makes the run FAILED.
   */
  lemma ReturnedTimeoutIsFailure(plan: seq<Provider>, start: Progress, sc: Scene)
    requires AllSay(OutcomeOf(After(plan, |plan|, start, sc), sc), TIMEOUT)
    ensures OutcomeOf(After(plan, |plan|, start, sc), sc).status == if AllTimeOut(plan, start, sc)
            then TIMEOUT else FAILED
  {
    var s := After(plan, |plan|, start, sc);
    TurnsExplain(plan, start, sc);
    StatusMeaning(plan, start, sc);
    AllSayTimeout(s, OutcomeOf(s, sc), plan, start, sc);
  }

  lemma AllSayTimeout(s: Progress, r: Outcome, plan: seq<Provider>, start: Progress, sc: Scene)
    requires Explains(s.turns, plan, start, sc) && r == OutcomeOf(s, sc)
    requires StatusReads(r, plan, start, sc) && AllSay(r, TIMEOUT)
    ensures r.status == if AllTimeOut(plan, start, sc) then TIMEOUT else FAILED
  {
    NothingCountsTwice(s.turns, r, plan, start, sc);
    assert !Good(r.diagnostics[0].status);
  }

  lemma NothingCountsTwice(ts: seq<Turn>, r: Outcome, plan: seq<Provider>, start: Progress, sc: Scene)
    requires Explains(ts, plan, start, sc) && r.diagnostics == Map(ts, DiagnosticOf) && AllSay(r, TIMEOUT)
    ensures NoneCountsTwice(plan, start, sc)
  {
    forall i | 0 <= i < |ts| ensures ts[i].verdict.tally != Spoiled && ts[i].verdict.tally != Unrecorded {
      assert r.diagnostics[i].status == ts[i].verdict.status && Consistent(ts[i].verdict);
    }
  }

  // ---- what the enriched event holds ----

  function ContributionOf(t: Turn): Contribution {
    Contribution(t.provider.namespace, t.verdict.data)
  }

  /** The extensions are the start's with all turns' contributions merged in. */
  ghost predicate MergedFrom(ext: Fields, s: Progress) {
    s.ext == MergeAll(ext, Map(s.turns, ContributionOf))
  }

  lemma MergeStep(ext: Fields, s: Progress, s': Progress, turn: Turn)
    requires MergedFrom(ext, s) && s'.turns == s.turns + [turn]
    requires s'.ext == Merged(s.ext, turn.provider.namespace, turn.verdict.data)
    ensures MergedFrom(ext, s')
  {
    assert Map(s'.turns, ContributionOf) == Map(s.turns, ContributionOf) + [ContributionOf(turn)];
    MergeAllSnoc(ext, Map(s.turns, ContributionOf), ContributionOf(turn));
  }

  lemma {:induction false} LoopMerges(plan: seq<Provider>, n: nat, start: Progress, sc: Scene)
    requires n <= |plan|
    ensures MergedFrom(start.ext, After(plan, n, start, sc))
  {
    if n > 0 {
      LoopMerges(plan, n - 1, start, sc);
      var s, turn := AfterStep(plan, n, start, sc);
      MergeStep(start.ext, s, After(plan, n, start, sc), turn);
    }
  }

  /**
   In the returned event every field outside `provenance` holds the input's
   value if there was one, otherwise that of the first planned provider whose
   attempt succeeded with the field; the rest of the event is as it was.
   */
  lemma EnrichedFields(plan: seq<Provider>, start: Progress, sc: Scene, namespace: string, key: string)
    ensures Enriched(After(plan, |plan|, start, sc), start.ext, sc, namespace, key)
  {
    var s := After(plan, |plan|, start, sc);
    LoopMerges(plan, |plan|, start, sc);
    TurnsFollowPlan(plan, |plan|, start, sc);
    MergedOutcome(s, start.ext, sc, namespace, key);
  }

  /** What the event assembled from the loop's end holds at a field, and that the rest is as it was. */
  ghost predicate Enriched(s: Progress, ext: Fields, sc: Scene, namespace: string, key: string) {
    var event := OutcomeOf(s, sc).event;
    && event.core == sc.core
    && event.extensions - {"enrichment"} == ext - {"enrichment"}
    && Field(event.extensions, namespace, key) ==
       (if namespace == "provenance" then None
        else if Field(ext, namespace, key).Some? then Field(ext, namespace, key)
        else FirstSupplied(Map(s.turns, ContributionOf), namespace, key))
    && (forall i :: 0 <= i < |s.turns| && s.turns[i].verdict.data != map[] ==>
         s.turns[i].verdict.status == SUCCESS || s.turns[i].verdict.tally in {Spoiled, Unrecorded})
  }

  lemma MergedOutcome(s: Progress, ext: Fields, sc: Scene, namespace: string, key: string)
    requires s.ext == MergeAll(ext, Map(s.turns, ContributionOf))
    requires forall i :: 0 <= i < |s.turns| ==> Consistent(s.turns[i].verdict)
    ensures Enriched(s, ext, sc, namespace, key)
  {
    var cs := Map(s.turns, ContributionOf);
    var provenance := Leaf(sc.w.render(Records(s.turns, sc.config.version)));
    FirstWriterWins(ext, cs, namespace, key);
    AttachedField(s.ext, provenance, namespace, key);
    MergeKeepsRest(ext, cs);
    AttachKeepsRest(s.ext, provenance);
  }

  lemma AttachKeepsRest(ext: Fields, provenance: Data)
    ensures Attached(ext, provenance) - {"enrichment"} == ext - {"enrichment"}
  {
  }

  // ---- the order of the configuration's lists is immaterial ----

  ghost predicate SameLoop(plan: seq<Provider>, n: nat, start: Progress, sc: Scene, sc': Scene) {
    n <= |plan| && After(plan, n, start, sc) == After(plan, n, start, sc')
  }

  lemma {:induction false} LoopIgnoresLists(plan: seq<Provider>, n: nat, start: Progress, sc: Scene, sc': Scene)
    requires n <= |plan| && sc' == sc.(config := sc'.config)
    requires sc'.config.timeouts == sc.config.timeouts && sc'.config.cacheTtl == sc.config.cacheTtl
    ensures SameLoop(plan, n, start, sc, sc')
  {
    if n == 0 {
      SameAtFirst(plan, start, sc, sc');
    } else {
      LoopIgnoresLists(plan, n - 1, start, sc, sc');
      SameNext(plan, n, start, sc, sc');
    }
  }

  lemma SameAtFirst(plan: seq<Provider>, start: Progress, sc: Scene, sc': Scene)
    ensures SameLoop(plan, 0, start, sc, sc')
  {
  }

  lemma SameNext(plan: seq<Provider>, n: nat, start: Progress, sc: Scene, sc': Scene)
    requires 0 < n <= |plan| && sc' == sc.(config := sc'.config) && SameLoop(plan, n - 1, start, sc, sc')
    requires sc'.config.timeouts == sc.config.timeouts && sc'.config.cacheTtl == sc.config.cacheTtl
    ensures SameLoop(plan, n, start, sc, sc')
  {
    AdvanceIgnoresLists(After(plan, n - 1, start, sc), After(plan, n - 1, start, sc'), plan[n - 1], sc, sc', n - 1);
  }

  lemma AdvanceIgnoresLists(s: Progress, s': Progress, p: Provider, sc: Scene, sc': Scene, i: nat)
    requires s == s' && sc' == sc.(config := sc'.config)
    requires sc'.config.timeouts == sc.config.timeouts && sc'.config.cacheTtl == sc.config.cacheTtl
    ensures Advance(s, p, sc, i) == Advance(s', p, sc', i)
  {
    AttemptIgnoresLists(p, s.ext, s.cache, sc, sc', i);
  }

  lemma AttemptIgnoresLists(p: Provider, ext: Fields, cache: Cached, sc: Scene, sc': Scene, i: nat)
    requires sc' == sc.(config := sc'.config)
    requires sc'.config.timeouts == sc.config.timeouts && sc'.config.cacheTtl == sc.config.cacheTtl
    ensures Attempt(p, ext, cache, sc, i) == Attempt(p, ext, cache, sc', i)
  {
  }

  /** Permuting `enabled_providers` or `rules` changes nothing in the whole result, nor in the cache. */
  lemma ResultIgnoresOrder(reg: Registry, start: Progress, sc: Scene, sc': Scene, o: Oracles)
    requires ValidRegistry(reg) && sc' == sc.(config := sc'.config)
    requires sc'.config == sc.config.(enabledProviders := sc'.config.enabledProviders, rules := sc'.config.rules)
    requires multiset(sc.config.enabledProviders) == multiset(sc'.config.enabledProviders)
    requires multiset(sc.config.rules) == multiset(sc'.config.rules)
    ensures var plan := Plan(reg, sc.config, Event(sc.core, start.ext), sc.tenant, o);
            var plan' := Plan(reg, sc'.config, Event(sc.core, start.ext), sc.tenant, o);
            SameResult(plan, plan', start, sc, sc')
  {
    var plan := Plan(reg, sc.config, Event(sc.core, start.ext), sc.tenant, o);
    PlanIgnoresOrder(reg, sc.config, sc'.config, Event(sc.core, start.ext), sc.tenant, o);
    SamePlanSameResult(plan, start, sc, sc');
  }

  ghost predicate SameResult(plan: seq<Provider>, plan': seq<Provider>, start: Progress, sc: Scene, sc': Scene) {
    var end, end' := After(plan, |plan|, start, sc), After(plan', |plan'|, start, sc');
    OutcomeOf(end, sc) == OutcomeOf(end', sc') && end.cache == end'.cache
  }

  lemma SamePlanSameResult(plan: seq<Provider>, start: Progress, sc: Scene, sc': Scene)
    requires sc' == sc.(config := sc'.config) && sc'.config.version == sc.config.version
    requires sc'.config.timeouts == sc.config.timeouts && sc'.config.cacheTtl == sc.config.cacheTtl
    ensures SameResult(plan, plan, start, sc, sc')
  {
    LoopIgnoresLists(plan, |plan|, start, sc, sc');
  }
}
