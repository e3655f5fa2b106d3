/** What every sequence of configuration calls keeps. */
module ConfigSyncRuns {
  import opened Results
  import opened OrderedDicts
  import opened ConfigSync

  /** The call names an entity, or its module uses one default for checking and writing. */
  predicate ScopesAgree(c: Call) {
    WrittenScope(c) == CheckedScope(c)
  }

  lemma ScopeKeyInjective(mod: string, tenant: string, e: string, f: string)
    ensures ScopeKey(mod, tenant, e) == ScopeKey(mod, tenant, f) <==> Or(e, "default") == Or(f, "default")
  {
    var prefix := mod + ":" + Or(tenant, "global") + ":";
    assert Or(e, "default") == ScopeKey(mod, tenant, e)[|prefix|..];
    assert Or(f, "default") == ScopeKey(mod, tenant, f)[|prefix|..];
  }

  /** Scopes of different modules, tenants or entities are different. */
  lemma ScopesAreSeparate(m1: string, t1: string, e1: string, m2: string, t2: string, e2: string)
    requires ':' !in m1 && ':' !in m2 && ':' !in t1 && ':' !in t2
    ensures ScopeKey(m1, t1, e1) == ScopeKey(m2, t2, e2) <==>
            m1 == m2 && Or(t1, "global") == Or(t2, "global") && Or(e1, "default") == Or(e2, "default")
  {
    if ScopeKey(m1, t1, e1) == ScopeKey(m2, t2, e2) {
      var x, y := Or(t1, "global") + ":" + Or(e1, "default"), Or(t2, "global") + ":" + Or(e2, "default");
      assert ScopeKey(m1, t1, e1) == m1 + ":" + x && ScopeKey(m2, t2, e2) == m2 + ":" + y;
      ColonSplit(m1, x, m2, y);
      ColonSplit(Or(t1, "global"), Or(e1, "default"), Or(t2, "global"), Or(e2, "default"));
    }
  }

  /** Where a call without an entity id writes. */
  lemma AnonymousScopes(c: Call)
    requires c.ev.entityId == ""
    ensures var m := ModuleOf(c);
            WrittenScope(c) == m + ":" + (if c.ev.tenantId == "" then "global" else c.ev.tenantId) + ":" +
              if m == "M1" then "default_sources"
              else if m == "M2" then
                if c.ev.payload.Some? && c.ev.payload.value.id != "" then c.ev.payload.value.id else "unknown_parser"
              else if m == "M3" then "custom_mapping"
              else "default"
  {
  }

  /** Which calls are checked against the scope they write. */
  lemma ScopesAgreeExactly(c: Call)
    ensures ScopesAgree(c) <==>
      || c.ev.entityId != ""
      || ModuleOf(c) !in ["M1", "M2", "M3"]
      || (ModuleOf(c) == "M2" && c.ev.payload.Some? && c.ev.payload.value.id == "default")
  {
    ScopeKeyInjective(ModuleOf(c), c.ev.tenantId, WrittenEntity(c), c.ev.entityId);
  }

  /** The call made its version active. */
  predicate Adopted(s: State, s': State, c: Call) {
    var k := WrittenScope(c);
    k in s'.active && s'.active[k] == c.ev.version && !(k in s.active && s.active[k] == c.ev.version)
  }

  /** A version acknowledged as applied is newer than the one it replaces. */
  predicate NoStaleApply(s: State, c: Call, t: Text) {
    && Apply(s, c, t).1.status == Applied
    && c.ev.distributionId !in s.distributions
    && WrittenScope(c) in s.active
    ==> Newer(c.ev.version, s.active[WrittenScope(c)], t)
  }

  /** Valid, adopted, and verified by the runtime. */
  predicate Adopting(c: Call) {
    Valid(c) && Outcome(c) == Some(Active)
  }

  /**
   Stale versions are refused in every state exactly when the check and the
   write use one scope.
   */
  lemma StaleRejectedExactly(c: Call, t: Text)
    requires Adopting(c)
    ensures (forall s :: NoStaleApply(s, c, t)) <==> ScopesAgree(c)
  {
    if !ScopesAgree(c) {
      var s := State(map[], map[WrittenScope(c) := c.ev.version], map[]);
      NewerIsStrictOrder(c.ev.version, c.ev.version, c.ev.version, t);
      assert !NoStaleApply(s, c, t);
    }
  }

  /** A source configuration without an entity id, adopted after a controlled restart. */
  function AnonymousSource(d: string, version: string, p: Payload): Call {
    Call(ConfigEvent(d, "", version, "sources", "", Some(p)), "M1", true, true, true, false, true)
  }

  lemma AnonymousSourceIsUnchecked(d: string, version: string, p: Payload)
    ensures Adopting(AnonymousSource(d, version, p)) && !ScopesAgree(AnonymousSource(d, version, p))
  {
    var c := AnonymousSource(d, version, p);
    ScopesAgreeExactly(c);
    assert OwnerOf("sources") == Some("M1");
  }

  /** Its scope then takes whatever version comes last, older ones included. */
  lemma AnonymousSourcesOverwrite(v1: string, v2: string, p: Payload, t: Text)
    ensures var c1, c2 := AnonymousSource("d1", v1, p), AnonymousSource("d2", v2, p);
            var (s1, a1) := Apply(State(map[], map[], map[]), c1, t);
            var (s2, a2) := Apply(s1, c2, t);
            && a1.status == a2.status == Applied
            && s1.active == map[WrittenScope(c1) := v1] && s2.active == map[WrittenScope(c1) := v2]
  {
    AnonymousSourceIsUnchecked("d1", v1, p);
    AnonymousSourceIsUnchecked("d2", v2, p);
    assert "d1"[1] != "d2"[1];
  }

  // ---- what an acknowledgement says ----

  ghost predicate Harmless(tenant: string) {
    '/' !in tenant && '\\' !in tenant && !exists a, b :: tenant == a + ".." + b
  }

  /** The module asked for, or else the one the configuration type is expected at. */
  function AskedModule(c: Call): string {
    if c.target != "" then c.target
    else if c.ev.configType in EXPECTED_MODULES then EXPECTED_MODULES[c.ev.configType]
    else "UNKNOWN"
  }

  /** A configuration that may be applied: for a module, readable, harmless, and newer than what is checked. */
  ghost predicate Admitted(s: State, c: Call, t: Text) {
    && c.ev.payload.Some? && Harmless(c.ev.tenantId) && AskedModule(c) in ["M1", "M2", "M3", "M4", "M5"]
    && (c.ev.configType in EXPECTED_MODULES ==> AskedModule(c) == EXPECTED_MODULES[c.ev.configType])
    && (CheckedScope(c) in s.active ==> Newer(c.ev.version, s.active[CheckedScope(c)], t))
    && !c.raises
  }

  /** The module still has to be restarted or reloaded for the configuration to take effect. */
  predicate Postponed(c: Call) {
    if AskedModule(c) == "M1" then !c.restart else AskedModule(c) != "M2" && !c.reload
  }

  /** The adoption by the running module was asked about. */
  predicate Checked(c: Call) {
    !Postponed(c) && (AskedModule(c) == "M1" || c.verify)
  }

  /**
   A first call for a distribution is acknowledged as applied exactly if the running
   module was asked and confirmed the adoption, as pending exactly if it was not
   asked, and is rejected otherwise.
   */
  lemma AcknowledgedExactly(s: State, c: Call, t: Text)
    requires c.ev.distributionId !in s.distributions
    ensures var a := Apply(s, c, t).1;
      && (a.status == Applied <==> Admitted(s, c, t) && Checked(c) && c.verified)
      && (a.status == NeedsRestart <==> Admitted(s, c, t) && Postponed(c) && AskedModule(c) == "M1")
      && (a.status == NeedsReload <==> Admitted(s, c, t) && Postponed(c) && AskedModule(c) != "M1")
      && (a.status == OnlyMaterialized <==> Admitted(s, c, t) && !Postponed(c) && !Checked(c))
      && a.distributionId == c.ev.distributionId && a.version == c.ev.version && a.mod == AskedModule(c)
      && a.configId == (if c.ev.entityId != "" then c.ev.entityId else c.ev.distributionId) && !a.duplicate
  {
    InferredAsExpected(c.ev.configType);
    MaliciousMeans(c.ev.tenantId);
  }

  // ---- one step ----

  /**
   Whatever its scopes: the written one takes the version exactly if the call is
   newly applied, and no other changes.
   */
  lemma StepFrame(s: State, c: Call, t: Text)
    ensures var (s', a) := Apply(s, c, t);
            s'.active == if c.ev.distributionId !in s.distributions && a.status == Applied
                         then s.active[WrittenScope(c) := c.ev.version] else s.active
  {
  }

  /** A recorded distribution stays as it is, a repeated one does nothing, and an applied one is recorded. */
  lemma StepRecords(s: State, c: Call, t: Text)
    ensures var (s', a) := Apply(s, c, t);
      && (forall d :: d in s.distributions ==> d in s'.distributions && s'.distributions[d] == s.distributions[d])
      && (c.ev.distributionId in s.distributions ==>
           s' == s && a == s.distributions[c.ev.distributionId].(duplicate := true))
      && (a.status == Applied ==> c.ev.distributionId in s'.distributions)
  {
  }

  /** What one call whose scopes agree may do. */
  lemma StepKeeps(s: State, c: Call, t: Text)
    requires ScopesAgree(c)
    ensures var (s', a) := Apply(s, c, t);
      // the written scope only moves forward
      && (forall k :: k in s.active ==> k in s'.active)
      && (forall k :: k in s.active && s'.active[k] != s.active[k] ==> Newer(s'.active[k], s.active[k], t))
      // APPLIED is truthful
      && (c.ev.distributionId !in s.distributions ==> (a.status == Applied <==> Adopted(s, s', c)))
      && (!Adopted(s, s', c) ==> s'.active == s.active)
  {
    StepFrame(s, c, t);
    NewerIsStrictOrder(c.ev.version, c.ev.version, c.ev.version, t);
  }

  // ---- runs ----

  function StateAt(calls: seq<Call>, t: Text, n: nat): State
    requires n <= |calls|
  {
    if n == 0 then State(map[], map[], map[]) else Apply(StateAt(calls, t, n - 1), calls[n - 1], t).0
  }

  function AckAt(calls: seq<Call>, t: Text, n: nat): Ack
    requires n < |calls|
  {
    Apply(StateAt(calls, t, n), calls[n], t).1
  }

  /** The call is the first with its distribution id to be recorded, and was applied. */
  predicate AppliedAt(calls: seq<Call>, t: Text, n: nat)
    requires n < |calls|
  {
    calls[n].ev.distributionId !in StateAt(calls, t, n).distributions && AckAt(calls, t, n).status == Applied
  }

  /** The latest of the first `n` calls that was applied to scope `k`. */
  function LatestApplied(calls: seq<Call>, t: Text, n: nat, k: string): Option<nat>
    requires n <= |calls|
  {
    if n == 0 then None
    else if AppliedAt(calls, t, n - 1) && WrittenScope(calls[n - 1]) == k then Some(n - 1)
    else LatestApplied(calls, t, n - 1, k)
  }

  /** What every call from `m` to `n` keeps, the run keeps. */
  lemma {:induction false} RunKeeps(calls: seq<Call>, t: Text, m: nat, n: nat, inv: State -> bool)
    requires m <= n <= |calls| && inv(StateAt(calls, t, m))
    requires forall s, i :: m <= i < n && inv(s) ==> inv(Apply(s, calls[i], t).0)
    ensures inv(StateAt(calls, t, n))
    decreases n
  {
    if m < n {
      RunKeeps(calls, t, m, n - 1, inv);
    }
  }

  lemma StepAdvances(s: State, s': State, c: Call, t: Text, k: string, base: string)
    requires (WrittenScope(c) == k ==> ScopesAgree(c)) && s' == Apply(s, c, t).0
    requires k in s.active && (base == s.active[k] || Newer(s.active[k], base, t))
    ensures k in s'.active && (base == s'.active[k] || Newer(s'.active[k], base, t))
  {
    StepFrame(s, c, t);
    if WrittenScope(c) == k {
      StepKeeps(s, c, t);
      if s'.active[k] != s.active[k] && base != s.active[k] {
        NewerIsStrictOrder(s'.active[k], s.active[k], base, t);
      }
    }
  }

  /** Scope `k` holds the version of call `last`, or nothing. */
  ghost predicate ActiveIs(s: State, calls: seq<Call>, k: string, last: Option<nat>, n: nat) {
    && (k in s.active <==> last.Some?)
    && (last.Some? ==> last.value < n <= |calls| && s.active[k] == calls[last.value].ev.version)
  }

  /** Call `n` is newly applied to scope `k`. */
  predicate Sets(s: State, c: Call, t: Text, k: string) {
    c.ev.distributionId !in s.distributions && Apply(s, c, t).1.status == Applied && WrittenScope(c) == k
  }

  lemma StepActive(s: State, s': State, calls: seq<Call>, t: Text, n: nat, k: string, last: Option<nat>)
    requires n < |calls| && ActiveIs(s, calls, k, last, n) && s' == Apply(s, calls[n], t).0
    ensures ActiveIs(s', calls, k, if Sets(s, calls[n], t, k) then Some(n) else last, n + 1)
  {
    StepFrame(s, calls[n], t);
  }

  lemma LatestStep(calls: seq<Call>, t: Text, n: nat, k: string)
    requires 0 < n <= |calls|
    ensures LatestApplied(calls, t, n, k) ==
            if Sets(StateAt(calls, t, n - 1), calls[n - 1], t, k)
                then Some(n - 1) else LatestApplied(calls, t, n - 1, k)
  {
  }

  ghost predicate LatestHolds(calls: seq<Call>, t: Text, n: nat, k: string) {
    n <= |calls| && ActiveIs(StateAt(calls, t, n), calls, k, LatestApplied(calls, t, n, k), n)
  }

  lemma NothingHeldAtFirst(calls: seq<Call>, t: Text, k: string)
    ensures LatestHolds(calls, t, 0, k)
  {
  }

  lemma LatestHoldsNext(calls: seq<Call>, t: Text, n: nat, k: string)
    requires 0 < n <= |calls| && LatestHolds(calls, t, n - 1, k)
    ensures LatestHolds(calls, t, n, k)
  {
    LatestStep(calls, t, n, k);
    StepActive(StateAt(calls, t, n - 1), StateAt(calls, t, n), calls, t, n - 1, k, LatestApplied(calls, t, n - 1, k));
  }

  /** In every run, every scope holds the version of its latest APPLIED acknowledgement. */
  lemma {:induction false} ActiveIsLatestApplied(calls: seq<Call>, t: Text, n: nat, k: string)
    requires n <= |calls|
    ensures LatestHolds(calls, t, n, k)
  {
    if n == 0 {
      NothingHeldAtFirst(calls, t, k);
    } else {
      ActiveIsLatestApplied(calls, t, n - 1, k);
      LatestHoldsNext(calls, t, n, k);
    }
  }

  /**
   Between any two points of a run a scope's version is unchanged or strictly
   newer, if every call in between that writes the scope is checked against it.
   */
  lemma {:induction false} VersionsOnlyAdvance(calls: seq<Call>, t: Text, m: nat, n: nat, k: string)
    requires m <= n <= |calls| && k in StateAt(calls, t, m).active
    requires forall i :: m <= i < n && WrittenScope(calls[i]) == k ==> ScopesAgree(calls[i])
    ensures k in StateAt(calls, t, n).active
    ensures var a, b := StateAt(calls, t, m).active[k], StateAt(calls, t, n).active[k];
            a == b || Newer(b, a, t)
  {
    var base := StateAt(calls, t, m).active[k];
    var inv := (s: State) => k in s.active && (base == s.active[k] || Newer(s.active[k], base, t));
    forall s, i | m <= i < n && inv(s) ensures inv(Apply(s, calls[i], t).0) {
      StepAdvances(s, Apply(s, calls[i], t).0, calls[i], t, k, base);
    }
    RunKeeps(calls, t, m, n, inv);
  }

  /** A recorded distribution is never overwritten. */
  lemma {:induction false} DistributionsAreFinal(calls: seq<Call>, t: Text, m: nat, n: nat, d: string)
    requires m <= n <= |calls| && d in StateAt(calls, t, m).distributions
    ensures d in StateAt(calls, t, n).distributions
    ensures StateAt(calls, t, n).distributions[d] == StateAt(calls, t, m).distributions[d]
  {
    var ack := StateAt(calls, t, m).distributions[d];
    var inv := (s: State) => d in s.distributions && s.distributions[d] == ack;
    forall s, i | m <= i < n && inv(s) ensures inv(Apply(s, calls[i], t).0) {
      StepRecords(s, calls[i], t);
    }
    RunKeeps(calls, t, m, n, inv);
  }

  ghost predicate RecordedAt(calls: seq<Call>, t: Text, n: nat, d: string) {
    n <= |calls| && d in StateAt(calls, t, n).distributions
  }

  /** Two different calls of the run were applied. */
  predicate BothApplied(calls: seq<Call>, t: Text, i: nat, j: nat) {
    i < j < |calls| && AppliedAt(calls, t, i) && AppliedAt(calls, t, j)
  }

  lemma EarlierIsRecorded(calls: seq<Call>, t: Text, i: nat, j: nat)
    requires BothApplied(calls, t, i, j)
    ensures RecordedAt(calls, t, i + 1, calls[i].ev.distributionId)
  {
    StepRecords(StateAt(calls, t, i), calls[i], t);
  }

  lemma LaterWasNew(calls: seq<Call>, t: Text, i: nat, j: nat)
    requires BothApplied(calls, t, i, j)
    ensures !RecordedAt(calls, t, j, calls[j].ev.distributionId)
  {
  }

  lemma RecordedOnce(calls: seq<Call>, t: Text, m: nat, n: nat, d: string, e: string)
    requires m <= n <= |calls| && RecordedAt(calls, t, m, d) && !RecordedAt(calls, t, n, e)
    ensures d != e
  {
    DistributionsAreFinal(calls, t, m, n, d);
  }

  /** Nor is it applied twice: no two applied calls of a run share a distribution id. */
  lemma AppliedOnce(calls: seq<Call>, t: Text, i: nat, j: nat)
    requires BothApplied(calls, t, i, j)
    ensures calls[i].ev.distributionId != calls[j].ev.distributionId
  {
    EarlierIsRecorded(calls, t, i, j);
    LaterWasNew(calls, t, i, j);
    RecordedOnce(calls, t, i + 1, j, calls[i].ev.distributionId, calls[j].ev.distributionId);
  }
}
