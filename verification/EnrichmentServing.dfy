/** When a cached answer is served instead of asking the provider again. */
module EnrichmentServing {
  import opened Results
  import opened AsciiText
  import opened Floats
  import opened OrderedDicts
  import opened EnrichmentModel
  import opened EnrichmentCache
  import opened EnrichmentEngine

  /** The seconds an answer of the provider is kept: its own timeout, cut to whole seconds, or the common lifetime. */
  ghost predicate Lifetime(c: Config, id: string, ttl: int) {
    if id !in c.timeouts then ttl == c.cacheTtl
    else
      && c.timeouts[id].Finite?
      && var t := c.timeouts[id].value;
         if t >= 0.0 then ttl as real <= t < (ttl + 1) as real else (ttl - 1) as real < t <= ttl as real
  }

  lemma LifetimeExactly(c: Config, id: string, ttl: int)
    ensures Lifetime(c, id, ttl) <==> Ttl(c, id) == Some(ttl)
  {
    if id in c.timeouts && c.timeouts[id].Finite? {
      var t := c.timeouts[id].value;
      FloorIs(t, ttl);
      FloorIs(-t, -ttl);
    }
  }

  lemma FloorIs(r: real, n: int)
    ensures r.Floor == n <==> n as real <= r < (n + 1) as real
  {
  }

  /** Names no provider may write. */
  predicate Protected(key: string) {
    Lower(key) in ["__proto__", "prototype", "constructor", "event", "provenance", "integrity"]
  }

  /** What becomes of a call: only a success that claims no protected name contributes, and all its data. */
  lemma SettledExactly(call: Call)
    ensures var v := Settle(call);
      if call.Returned? && call.output.status == SUCCESS && forall key :: key in call.output.data ==> !Protected(key)
      then v.data == call.output.data
           && v.status == if Recordable(call.output.confidence) then SUCCESS else FAILED
      else v.data == map[]
           && v.status == match call
                          case RaisedTimeout => TIMEOUT
                          case RaisedOther => FAILED
                          case Returned(o) => if o.status == SUCCESS then FAILED else o.status
  {
    assert forall key :: Protected(key) <==> Lower(key) in FORBIDDEN_KEYS;
  }

  function FirstPresent(candidates: seq<Option<string>>, default: string): string {
    if candidates == [] then default
    else if candidates[0].Some? && candidates[0].value != "" then candidates[0].value
    else FirstPresent(candidates[1..], default)
  }

  /** What an event is looked up by: the first address or name it has, in the order of the provider's namespace. */
  lemma LookedUpBy(c: Core, p: Provider)
    ensures LookupKey(c, p) ==
            if p.namespace == "asset" then FirstPresent([c.sourceIp, c.hostname, c.hostName], "unknown")
            else if p.namespace == "geo" then FirstPresent([c.sourceIp, c.destinationIp], "unknown")
            else if p.namespace == "threat_intel"
              then FirstPresent([c.destinationDomain, c.destinationIp, c.sourceIp], "unknown")
            else FirstPresent([c.sourceIp], c.id)
  {
    assert [c.sourceIp] + [c.hostname, c.hostName] == [c.sourceIp, c.hostname, c.hostName];
    PresentNext(c.sourceIp, [c.hostname, c.hostName], "unknown");
    PresentNext(c.hostname, [c.hostName], "unknown");
    PresentNext(c.sourceIp, [c.destinationIp], "unknown");
    PresentNext(c.destinationDomain, [c.destinationIp, c.sourceIp], "unknown");
    PresentNext(c.destinationIp, [c.sourceIp], "unknown");
  }

  lemma PresentNext(x: Option<string>, rest: seq<Option<string>>, default: string)
    ensures FirstPresent([x] + rest, default) ==
            if x.Some? && x.value != "" then x.value else FirstPresent(rest, default)
  {
    assert ([x] + rest)[1..] == rest;
  }

  /** The provider is asked at position `i`, answers usably, and the answer is to be kept for `ttl` seconds. */
  ghost predicate AnswersFor(p: Provider, ext: Fields, cache: Cached, sc: Scene, i: nat, ttl: int, o: Output) {
    && sc.caching && Missed(p, cache, sc, i) && Lifetime(sc.config, p.id, ttl)
    && sc.w.enrich(p, Event(sc.core, ext), sc.tenant, i) == Returned(o)
    && o.status == SUCCESS && ValidOutput(o.data) && Recordable(o.confidence)
  }

  /** The same data is looked up: by the same tenant, or for a provider that is not tenant-sensitive. */
  predicate SameLookup(p: Provider, a: Scene, b: Scene) {
    LookupKey(a.core, p) == LookupKey(b.core, p) && (p.tenantSensitive ==> a.tenant == b.tenant)
  }

  lemma SameLookupSharesKey(p: Provider, a: Scene, b: Scene)
    requires SameLookup(p, a, b)
    ensures BuildKey(SlotFor(p, a)) == BuildKey(SlotFor(p, b))
  {
  }

  /** The answer is reported, merged and put in the cache. */
  lemma AnswerIsKept(p: Provider, ext: Fields, cache: Cached, sc: Scene, i: nat, ttl: int, o: Output)
    requires Filed(cache, sc.maxSize) && sc.maxSize >= 1 && AnswersFor(p, ext, cache, sc, i, ttl, o)
    ensures var (kept, turn) := Attempt(p, ext, cache, sc, i);
            && turn == Turn(p, Verdict(Succeeded, SUCCESS, o.data), MISS)
            && BuildKey(SlotFor(p, sc)) in kept.entries
            && kept.entries[BuildKey(SlotFor(p, sc))] == CacheEntry(SlotFor(p, sc), sc.w.writeTime(i), ttl, o.data)
  {
    LifetimeExactly(sc.config, p.id, ttl);
    FetchKeeps(cache, sc.maxSize, BuildKey(SlotFor(p, sc)), sc.w.readTime(i));
    var looked := Fetched(cache, BuildKey(SlotFor(p, sc)), sc.w.readTime(i)).0;
    StoreKeeps(looked, sc.maxSize, EntryFor(p, sc, i, ttl, o.data));
  }

  /**
   Asked for the same data next, the cache serves the answer again exactly until
   its lifetime is over, whatever the provider would say then.
   */
  lemma AnswerIsServedAgain(
      p: Provider, ext: Fields, cache: Cached, sc: Scene, i: nat, ttl: int, o: Output,
      ext': Fields, sc': Scene, j: nat)
    requires Filed(cache, sc.maxSize) && sc.maxSize >= 1 && AnswersFor(p, ext, cache, sc, i, ttl, o)
    requires sc'.caching && SameLookup(p, sc, sc')
    ensures var kept := Attempt(p, ext, cache, sc, i).0;
            var turn := Attempt(p, ext', kept, sc', j).1;
            if sc'.w.readTime(j) - sc.w.writeTime(i) <= ttl as real
            then turn == Turn(p, Verdict(Succeeded, SUCCESS, o.data), HIT) else turn.cacheStatus != HIT
  {
    AnswerIsKept(p, ext, cache, sc, i, ttl, o);
    SameLookupSharesKey(p, sc, sc');
    KeptInOrder(p, ext, cache, sc, i, ttl, o);
  }

  lemma KeptInOrder(p: Provider, ext: Fields, cache: Cached, sc: Scene, i: nat, ttl: int, o: Output)
    requires Filed(cache, sc.maxSize) && sc.maxSize >= 1 && AnswersFor(p, ext, cache, sc, i, ttl, o)
    ensures BuildKey(SlotFor(p, sc)) in Attempt(p, ext, cache, sc, i).0.order
  {
    LifetimeExactly(sc.config, p.id, ttl);
    var key := BuildKey(SlotFor(p, sc));
    FetchKeeps(cache, sc.maxSize, key, sc.w.readTime(i));
    var looked := Fetched(cache, key, sc.w.readTime(i)).0;
    StoreKeeps(looked, sc.maxSize, EntryFor(p, sc, i, ttl, o.data));
    assert Stored(looked, sc.maxSize, EntryFor(p, sc, i, ttl, o.data)).Valid();
  }
}
