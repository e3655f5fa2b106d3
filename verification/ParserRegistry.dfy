/**
 The parser registry service (M2/abcd-main/app/registry/service.py):
 registration, rollback and parser resolution.
 */
module ParserRegistry {
  import opened Results
  import opened Orders
  import opened OrderedDicts
  import opened ParserRepository

  // ---- registration ----

  predicate Accepts(d: Parser, caller: string, isSystem: bool) {
    !isSystem && caller != "global" ==> d.tenant != "global" && d.tenant == caller
  }

  /** `valid`: the definition passes validation and compiles. */
  function Registered(s: Store, d: Parser, caller: string, isSystem: bool, valid: bool): Option<Store> {
    if Accepts(d, caller, isSystem) && valid then Some(Saved(s, d.(status := ACTIVE))) else None
  }

  /** A valid definition is registered exactly by its own tenant, by the system or by the caller "global". */
  lemma RegistersExactly(s: Store, d: Parser, caller: string, isSystem: bool, valid: bool)
    requires Filed(s)
    ensures var r := Registered(s, d, caller, isSystem, valid);
            && (r.Some? <==> valid && (isSystem || caller == "global" || d.tenant == caller))
            && (r.Some? ==> Stored(r.value, d.tenant, d.id, d.version) == Some(d.(status := ACTIVE)))
  {
    SavedExactly(s, d.(status := ACTIVE), d.tenant, d.id, d.version);
  }

  /** Whatever this caller registers, no other tenant's reads change. */
  ghost predicate Isolated(caller: string, isSystem: bool) {
    forall s: Store, d: Parser, tenant: string ::
      d.tenant != "" && Accepts(d, caller, isSystem) && tenant != caller ==>
      SameView(s, Saved(s, d.(status := ACTIVE)), tenant)
  }

  /** Registration is isolated exactly for callers that are neither the system nor "global". */
  lemma IsolationExactly(caller: string, isSystem: bool)
    ensures Isolated(caller, isSystem) <==> !isSystem && caller != "global"
  {
    if isSystem || caller == "global" {
      var tenant := caller + "x";
      assert |tenant| > |caller|;
      var d := Parser("p", tenant, "1.0.0", 100, ACTIVE, "Generic", "Generic", [], []);
      var s: Store := map[];
      assert Accepts(d, caller, isSystem) && d == d.(status := ACTIVE);
      assert PartitionOf(s, tenant) != PartitionOf(Saved(s, d), tenant) by {
        assert "p" in PartitionOf(Saved(s, d), tenant).entries;
      }
      assert !SameView(s, Saved(s, d.(status := ACTIVE)), tenant);
    }
  }

  // ---- parser resolution ----

  /** A classification, stripped and lower-cased. */
  datatype Classification = Classification(vendor: string, product: string, format: string)

  /** Lower-casing, whether a definition compiles and accepts the payload, and the built-in parsers that fit. */
  datatype Matching = Matching(lower: string -> string, canParse: Parser -> bool, builtIns: seq<Parser>,
      fits: Parser -> bool)

  predicate HasFormat(d: Parser, format: string, m: Matching) {
    exists i :: 0 <= i < |d.formats| && m.lower(d.formats[i]) == format
  }

  predicate Vague(s: string) {
    s == "" || s == "unknown"
  }

  predicate OwnFits(d: Parser, c: Classification, m: Matching) {
    && (m.lower(d.vendor) == c.vendor || Vague(c.vendor))
    && (m.lower(d.product) == c.product || d.product == "Generic" || Vague(c.product))
    && (HasFormat(d, c.format, m) || HasFormat(d, "syslog", m))
    && m.canParse(d)
  }

  predicate GlobalFits(d: Parser, c: Classification, m: Matching) {
    && m.lower(d.vendor) == c.vendor
    && (m.lower(d.product) == c.product || d.product == "Generic")
    && HasFormat(d, c.format, m) && m.canParse(d)
  }

  predicate GenericFits(d: Parser, c: Classification, m: Matching) {
    m.lower(d.vendor) == "generic" && HasFormat(d, c.format, m) && m.canParse(d)
  }

  function Own(c: Classification, m: Matching): Parser -> bool { d => OwnFits(d, c, m) }
  function Baseline(c: Classification, m: Matching): Parser -> bool { d => GlobalFits(d, c, m) }
  function Generic(c: Classification, m: Matching): Parser -> bool { d => GenericFits(d, c, m) }
  function Any(): Parser -> bool { d => true }

  function First(ps: seq<Parser>, fits: Parser -> bool): (r: Option<Parser>)
    ensures r.Some? <==> exists p :: p in ps && fits(p)
    ensures r.Some? ==> r.value in ps && fits(r.value)
  {
    if ps == [] then None
    else
      assert ps == [ps[0]] + ps[1..];
      if fits(ps[0]) then Some(ps[0]) else First(ps[1..], fits)
  }

  function OrElse(a: Option<Parser>, b: Option<Parser>): Option<Parser> {
    if a.Some? then a else b
  }

  function OwnStep(s: Store, c: Classification, tenant: string, parse: VersionParser, m: Matching): Option<Parser> {
    if tenant != "" && tenant != "global" then First(ListFor(s, tenant, false, parse, Any()), Own(c, m)) else None
  }

  function BaselineStep(s: Store, c: Classification, parse: VersionParser, m: Matching): Option<Parser> {
    if Vague(c.vendor) then None else First(ListFor(s, "global", true, parse, Any()), Baseline(c, m))
  }

  function GenericStep(s: Store, c: Classification, tenant: string, parse: VersionParser, m: Matching): Option<Parser> {
    First(ListFor(s, tenant, true, parse, Any()), Generic(c, m))
  }

  /** The four-step hierarchy. */
  function FindParser(s: Store, c: Classification, tenant: string, parse: VersionParser, m: Matching): Option<Parser> {
    OrElse(OwnStep(s, c, tenant, parse, m),
           OrElse(BaselineStep(s, c, parse, m), OrElse(GenericStep(s, c, tenant, parse, m), First(m.builtIns, m.fits))))
  }

  /** Parser resolution, too, reads only the tenant's partition and the global one. */
  lemma FindSeesOwnView(s: Store, s': Store, c: Classification, tenant: string, parse: VersionParser, m: Matching)
    requires SameView(s, s', tenant)
    ensures FindParser(s, c, tenant, parse, m) == FindParser(s', c, tenant, parse, m)
  {
    ListSeesOwn(s, s', tenant, false, parse, Any());
    ListSeesOwn(s, s', tenant, true, parse, Any());
    ListSeesOwn(s, s', "global", true, parse, Any());
  }

  lemma {:induction false} FirstIsLeast(ps: seq<Parser>, fits: Parser -> bool, q: Parser)
    requires SortedBy(ps, PriorityLe()) && q in ps && fits(q)
    ensures First(ps, fits).Some? && First(ps, fits).value.priority <= q.priority
  {
    if fits(ps[0]) {
      var i :| 0 <= i < |ps| && ps[i] == q;
      assert i == 0 || PriorityLe()(ps[0], ps[i]);
    } else {
      assert q in ps[1..];
      FirstIsLeast(ps[1..], fits, q);
    }
  }

  lemma ListedIsNear(s: Store, tenant: string, includeGlobal: bool, parse: VersionParser, p: Parser)
    requires Filed(s) && p in ListFor(s, tenant, includeGlobal, parse, Any())
    ensures p.status == ACTIVE && (p.tenant == tenant || (includeGlobal && p.tenant == "global"))
  {
    ListExactly(s, tenant, includeGlobal, parse, Any(), p);
    GetIsFiled(s, p.id, tenant, parse);
    GetIsFiled(s, p.id, "global", parse);
  }

  lemma OwnStepIsOwn(s: Store, c: Classification, tenant: string, parse: VersionParser, m: Matching)
    requires Filed(s)
    ensures var r := OwnStep(s, c, tenant, parse, m); r.Some? ==> r.value.status == ACTIVE && r.value.tenant == tenant
  {
    var r := OwnStep(s, c, tenant, parse, m);
    if r.Some? {
      ListedIsNear(s, tenant, false, parse, r.value);
    }
  }

  lemma LaterStepsAreNear(s: Store, c: Classification, tenant: string, parse: VersionParser, m: Matching)
    requires Filed(s)
    ensures var r := BaselineStep(s, c, parse, m); r.Some? ==> r.value.status == ACTIVE && r.value.tenant == "global"
    ensures var r := GenericStep(s, c, tenant, parse, m);
            r.Some? ==> r.value.status == ACTIVE && (r.value.tenant == tenant || r.value.tenant == "global")
  {
    var baseline, generic := BaselineStep(s, c, parse, m), GenericStep(s, c, tenant, parse, m);
    if baseline.Some? {
      ListedIsNear(s, "global", true, parse, baseline.value);
    }
    if generic.Some? {
      ListedIsNear(s, tenant, true, parse, generic.value);
    }
  }

  /** What is found is a built-in, or an ACTIVE parser of the tenant or of the baseline. */
  lemma FoundIsOwnOrGlobal(s: Store, c: Classification, tenant: string, parse: VersionParser, m: Matching)
    requires Filed(s)
    ensures var r := FindParser(s, c, tenant, parse, m);
            r.Some? ==>
              (r.value in m.builtIns
               || (r.value.status == ACTIVE && (r.value.tenant == tenant || r.value.tenant == "global")))
  {
    OwnStepIsOwn(s, c, tenant, parse, m);
    LaterStepsAreNear(s, c, tenant, parse, m);
  }

  /** A fitting parser of the tenant beats everything else, the one with the lowest priority number first. */
  lemma OwnParserWins(s: Store, c: Classification, tenant: string, parse: VersionParser, m: Matching, q: Parser)
    requires Filed(s) && tenant != "" && tenant != "global" && Offers(s, tenant, parse, Any(), q) && OwnFits(q, c, m)
    ensures var r := FindParser(s, c, tenant, parse, m);
            r.Some? && r.value.tenant == tenant && r.value.priority <= q.priority
  {
    OwnStepIsOwn(s, c, tenant, parse, m);
    ListExactly(s, tenant, false, parse, Any(), q);
    FirstIsLeast(ListFor(s, tenant, false, parse, Any()), Own(c, m), q);
  }

  /** No own parser of the tenant fits. */
  ghost predicate NoOwnFits(s: Store, c: Classification, tenant: string, parse: VersionParser, m: Matching) {
    tenant != "" && tenant != "global" ==> forall q :: Offers(s, tenant, parse, Any(), q) ==> !OwnFits(q, c, m)
  }

  /** No baseline parser fits the classified vendor, or the vendor is not known. */
  ghost predicate NoBaselineFits(s: Store, c: Classification, parse: VersionParser, m: Matching) {
    Vague(c.vendor) || forall q :: Offers(s, "global", parse, Any(), q) ==> !GlobalFits(q, c, m)
  }

  ghost predicate NoGenericFits(s: Store, c: Classification, tenant: string, parse: VersionParser, m: Matching) {
    forall q :: q in ListFor(s, tenant, true, parse, Any()) ==> !GenericFits(q, c, m)
  }

  lemma OwnStepNone(s: Store, c: Classification, tenant: string, parse: VersionParser, m: Matching)
    requires Filed(s) && NoOwnFits(s, c, tenant, parse, m)
    ensures OwnStep(s, c, tenant, parse, m).None?
  {
    if tenant != "" && tenant != "global" {
      forall q | q in ListFor(s, tenant, false, parse, Any()) ensures !OwnFits(q, c, m) {
        ListExactly(s, tenant, false, parse, Any(), q);
      }
    }
  }

  /** What the global partition lists is what it offers. */
  lemma BaselineOffers(s: Store, parse: VersionParser, q: Parser)
    requires Filed(s)
    ensures q in ListFor(s, "global", true, parse, Any()) <==> Offers(s, "global", parse, Any(), q)
  {
    ListExactly(s, "global", true, parse, Any(), q);
  }

  lemma BaselineStepNone(s: Store, c: Classification, parse: VersionParser, m: Matching)
    requires Filed(s) && NoBaselineFits(s, c, parse, m)
    ensures BaselineStep(s, c, parse, m).None?
  {
    if !Vague(c.vendor) {
      forall q | q in ListFor(s, "global", true, parse, Any()) ensures !GlobalFits(q, c, m) {
        BaselineOffers(s, parse, q);
      }
    }
  }

  /** Next comes a fitting baseline parser, the one with the lowest priority number first. */
  lemma BaselineWins(s: Store, c: Classification, tenant: string, parse: VersionParser, m: Matching, q: Parser)
    requires Filed(s) && NoOwnFits(s, c, tenant, parse, m)
    requires !Vague(c.vendor) && Offers(s, "global", parse, Any(), q) && GlobalFits(q, c, m)
    ensures var r := FindParser(s, c, tenant, parse, m);
            r.Some? && r.value.tenant == "global" && GlobalFits(r.value, c, m) && r.value.priority <= q.priority
  {
    OwnStepNone(s, c, tenant, parse, m);
    LaterStepsAreNear(s, c, tenant, parse, m);
    BaselineOffers(s, parse, q);
    ListExactly(s, "global", true, parse, Any(), q);
    FirstIsLeast(ListFor(s, "global", true, parse, Any()), Baseline(c, m), q);
  }

  /** Then a fitting generic parser among those the tenant sees, the one with the lowest priority number first. */
  lemma GenericWins(s: Store, c: Classification, tenant: string, parse: VersionParser, m: Matching, q: Parser)
    requires Filed(s) && NoOwnFits(s, c, tenant, parse, m) && NoBaselineFits(s, c, parse, m)
    requires q in ListFor(s, tenant, true, parse, Any()) && GenericFits(q, c, m)
    ensures var r := FindParser(s, c, tenant, parse, m);
            r.Some? && GenericFits(r.value, c, m) && r.value.priority <= q.priority
            && r.value in ListFor(s, tenant, true, parse, Any())
  {
    OwnStepNone(s, c, tenant, parse, m);
    BaselineStepNone(s, c, parse, m);
    ListExactly(s, tenant, true, parse, Any(), q);
    FirstIsLeast(ListFor(s, tenant, true, parse, Any()), Generic(c, m), q);
  }

  /** Last, and only then, the first built-in parser that fits. */
  lemma BuiltInsComeLast(s: Store, c: Classification, tenant: string, parse: VersionParser, m: Matching, k: nat)
    requires Filed(s) && NoOwnFits(s, c, tenant, parse, m) && NoBaselineFits(s, c, parse, m)
    requires NoGenericFits(s, c, tenant, parse, m)
    requires k <= |m.builtIns| && forall i :: 0 <= i < k ==> !m.fits(m.builtIns[i])
    requires k < |m.builtIns| ==> m.fits(m.builtIns[k])
    ensures FindParser(s, c, tenant, parse, m) == if k < |m.builtIns| then Some(m.builtIns[k]) else None
  {
    OwnStepNone(s, c, tenant, parse, m);
    BaselineStepNone(s, c, parse, m);
    FirstIs(m.builtIns, m.fits, k);
  }

  lemma {:induction false} FirstIs(ps: seq<Parser>, fits: Parser -> bool, k: nat)
    requires k <= |ps| && forall i :: 0 <= i < k ==> !fits(ps[i])
    requires k < |ps| ==> fits(ps[k])
    ensures First(ps, fits) == if k < |ps| then Some(ps[k]) else None
  {
    if k > 0 {
      FirstIs(ps[1..], fits, k - 1);
    }
  }

  /** One of the definition's formats is this one, in whatever letter case. */
  predicate Speaks(d: Parser, format: string, m: Matching) {
    exists f :: f in d.formats && m.lower(f) == format
  }

  lemma SpeaksMeans(d: Parser, format: string, m: Matching)
    ensures HasFormat(d, format, m) <==> Speaks(d, format, m)
  {
    if HasFormat(d, format, m) {
      var i :| 0 <= i < |d.formats| && m.lower(d.formats[i]) == format;
      assert d.formats[i] in d.formats;
    }
    if f :| f in d.formats && m.lower(f) == format {
      var i :| 0 <= i < |d.formats| && d.formats[i] == f;
    }
  }

  /** The classification names no vendor, or no product. */
  predicate Unnamed(s: string) {
    s in ["", "unknown"]
  }

  /** What a registered parser must be like to be found: the tenant's own has more latitude. */
  predicate Suits(d: Parser, c: Classification, m: Matching, own: bool) {
    && m.canParse(d)
    && (m.lower(d.vendor) == c.vendor || m.lower(d.vendor) == "generic" || (own && Unnamed(c.vendor)))
    && (m.lower(d.product) == c.product || d.product == "Generic" || m.lower(d.vendor) == "generic"
        || (own && Unnamed(c.product)))
    && (Speaks(d, c.format, m) || (own && Speaks(d, "syslog", m)))
  }

  /** No vendor's parser is found for another vendor, in another format or for what it cannot parse. */
  lemma FoundSuits(s: Store, c: Classification, tenant: string, parse: VersionParser, m: Matching)
    requires Filed(s)
    ensures var r := FindParser(s, c, tenant, parse, m);
            r.Some? && r.value !in m.builtIns ==>
              Suits(r.value, c, m, tenant != "" && tenant != "global" && r.value.tenant == tenant)
  {
    var r := FindParser(s, c, tenant, parse, m);
    OwnStepIsOwn(s, c, tenant, parse, m);
    if r.Some? && (OwnStep(s, c, tenant, parse, m).Some? || BaselineStep(s, c, parse, m).Some?
                   || GenericStep(s, c, tenant, parse, m).Some?) {
      FitsSuit(r.value, c, m);
    }
  }

  lemma FitsSuit(d: Parser, c: Classification, m: Matching)
    ensures OwnFits(d, c, m) ==> Suits(d, c, m, true)
    ensures GlobalFits(d, c, m) || GenericFits(d, c, m) ==> forall own :: Suits(d, c, m, own)
  {
    SpeaksMeans(d, c.format, m);
    SpeaksMeans(d, "syslog", m);
  }

  /** An own parser for exactly this vendor, product and format that can parse the payload is not passed over. */
  lemma OwnMatchIsFound(s: Store, c: Classification, tenant: string, parse: VersionParser, m: Matching, q: Parser)
    requires Filed(s) && tenant != "" && tenant != "global" && Offers(s, tenant, parse, Any(), q) && m.canParse(q)
    requires m.lower(q.vendor) == c.vendor || Unnamed(c.vendor)
    requires m.lower(q.product) == c.product || q.product == "Generic" || Unnamed(c.product)
    requires Speaks(q, c.format, m) || Speaks(q, "syslog", m)
    ensures var r := FindParser(s, c, tenant, parse, m);
            r.Some? && r.value.tenant == tenant && r.value.priority <= q.priority
  {
    SpeaksMeans(q, c.format, m);
    SpeaksMeans(q, "syslog", m);
    OwnParserWins(s, c, tenant, parse, m, q);
  }

  /** Nor is a baseline parser, if no own one fits, or a generic one, if no baseline one does either. */
  lemma SharedMatchIsFound(s: Store, c: Classification, tenant: string, parse: VersionParser, m: Matching, q: Parser)
    requires Filed(s) && NoOwnFits(s, c, tenant, parse, m) && m.canParse(q) && Speaks(q, c.format, m)
    ensures !Unnamed(c.vendor) && Offers(s, "global", parse, Any(), q) && m.lower(q.vendor) == c.vendor
            && (m.lower(q.product) == c.product || q.product == "Generic") ==>
              var r := FindParser(s, c, tenant, parse, m);
              r.Some? && r.value.tenant == "global" && r.value.priority <= q.priority
    ensures NoBaselineFits(s, c, parse, m) && q in ListFor(s, tenant, true, parse, Any())
            && m.lower(q.vendor) == "generic" ==>
              var r := FindParser(s, c, tenant, parse, m); r.Some? && r.value.priority <= q.priority
  {
    SpeaksMeans(q, c.format, m);
    if !Unnamed(c.vendor) && Offers(s, "global", parse, Any(), q) && GlobalFits(q, c, m) {
      BaselineWins(s, c, tenant, parse, m, q);
    }
    if NoBaselineFits(s, c, parse, m) && q in ListFor(s, tenant, true, parse, Any()) && GenericFits(q, c, m) {
      GenericWins(s, c, tenant, parse, m, q);
    }
  }

  /** Registration by an isolated caller leaves every answer of every other tenant as it was. */
  lemma RegistrationKeepsOthers(
      s: Store, d: Parser, caller: string, tenant: string, parse: VersionParser, c: Classification, m: Matching)
    requires d.tenant != "" && caller != "global" && tenant != caller && Accepts(d, caller, false)
    ensures var s' := Registered(s, d, caller, false, true).value;
            && (forall id, version :: Get(s, id, version, tenant, parse) == Get(s', id, version, tenant, parse))
            && (forall includeGlobal, wanted ::
                  ListFor(s, tenant, includeGlobal, parse, wanted) == ListFor(s', tenant, includeGlobal, parse, wanted))
            && FindParser(s, c, tenant, parse, m) == FindParser(s', c, tenant, parse, m)
  {
    var s' := Saved(s, d.(status := ACTIVE));
    IsolationExactly(caller, false);
    assert SameView(s, s', tenant);
    ReadsSeeOwnView(s, s', tenant, parse);
    FindSeesOwnView(s, s', c, tenant, parse, m);
  }

  // ---- rollback ----

  /** The partition a request resolves to. */
  function Home(s: Store, id: string, tenant: string): string {
    if tenant != "" && id in PartitionOf(s, tenant).entries then tenant else "global"
  }

  function Restated(p: Parser, target: string): Parser {
    p.(status := if p.version == target then ACTIVE else DISABLED)
  }

  /** The versions after those in `done` got their new status. */
  function Partly(vs: Versions, done: seq<string>, target: string): Versions {
    OrderedDict(vs.order, map v | v in vs.entries :: if v in done
        then Restated(vs.entries[v], target) else vs.entries[v])
  }

  function RolledBack(s: Store, id: string, target: string, tenant: string): Option<Store> {
    match Resolve(s, id, tenant)
    case Some(vs) =>
      if target !in vs.entries then None
      else
        var home := Home(s, id, tenant);
        Some(s[home := PartitionOf(s, home).Assign(id, Partly(vs, vs.order, target))])
    case None => None
  }

  /** A rollback is accepted exactly if the target is a stored version of the parser the tenant sees. */
  lemma RollsBackExactly(s: Store, id: string, target: string, tenant: string)
    ensures RolledBack(s, id, target, tenant).Some? <==>
            if tenant != "" && tenant in s && id in s[tenant].entries then Stored(s, tenant, id, target).Some?
            else Stored(s, "global", id, target).Some?
  {
  }

  /** The store at that point. */
  function Stage(s: Store, home: string, id: string, vs: Versions, done: seq<string>, target: string): Store
    requires home in s
  {
    s[home := s[home].Assign(id, Partly(vs, done, target))]
  }

  lemma VersionsStep(
      mid: Partition, id: string, vs: Versions, home: string, done: seq<string>, v: string, target: string)
    requires FiledVersions(vs, home, id) && v in vs.entries
    requires id in mid.entries && mid.entries[id] == Partly(vs, done, target)
    ensures SavedVersions(mid, Restated(vs.entries[v], target)) == Partly(vs, done + [v], target)
  {
    var p := Restated(vs.entries[v], target);
    assert Partly(vs, done, target).Assign(v, p).entries == Partly(vs, done + [v], target).entries;
  }

  lemma PartlyStep(s: Store, home: string, id: string, vs: Versions, done: seq<string>, v: string, target: string)
    requires Filed(s) && home in s && id in s[home].entries && s[home].entries[id] == vs && v in vs.entries
    ensures Saved(Stage(s, home, id, vs, done, target), Restated(vs.entries[v], target)) ==
            Stage(s, home, id, vs, done + [v], target)
  {
    assert FiledPartition(s[home], home) && FiledVersions(vs, home, id);
    var p := Restated(vs.entries[v], target);
    var mid := s[home].Assign(id, Partly(vs, done, target));
    VersionsStep(mid, id, vs, home, done, v, target);
    ReassignedOnce(s[home], id, Partly(vs, done, target), Partly(vs, done + [v], target));
  }

  lemma ReassignedOnce(p: Partition, id: string, a: Versions, b: Versions)
    requires p.Valid() && id in p.entries
    ensures p.Assign(id, a).Assign(id, b) == p.Assign(id, b)
  {
    assert p.Assign(id, a).Assign(id, b).entries == p.Assign(id, b).entries;
  }

  /** The store `r` is `s` at that point of the rollback of `id`. */
  ghost predicate Staged(
      r: Store, s: Store, home: string, id: string, vs: Versions, done: seq<string>, target: string) {
    home in s && r == Stage(s, home, id, vs, done, target)
  }

  lemma StagedStep(
      r: Store, s: Store, home: string, id: string, vs: Versions, done: seq<string>, v: string, target: string)
    requires Filed(s) && id in PartitionOf(s, home).entries && PartitionOf(s, home).entries[id] == vs && v in vs.entries
    requires Staged(r, s, home, id, vs, done, target)
    ensures Staged(Saved(r, Restated(vs.entries[v], target)), s, home, id, vs, done + [v], target)
    ensures vs.entries[v].tenant != ""
  {
    PartlyStep(s, home, id, vs, done, v, target);
    assert FiledPartition(s[home], home) && FiledVersions(vs, home, id);
  }

  lemma PartlyNone(s: Store, home: string, id: string, vs: Versions, target: string)
    requires Filed(s) && home in s && id in s[home].entries && s[home].entries[id] == vs
    ensures Staged(s, s, home, id, vs, [], target)
  {
    assert FiledPartition(s[home], home);
    assert Partly(vs, [], target).entries == vs.entries;
    assert s[home].entries[id := vs] == s[home].entries;
    assert s[home].Assign(id, vs) == s[home];
  }

  lemma PartlyAll(vs: Versions, done: seq<string>, target: string)
    requires vs.Valid() && forall v :: v in done <==> v in vs.order
    ensures Partly(vs, done, target) == Partly(vs, vs.order, target)
  {
    assert Partly(vs, done, target).entries == Partly(vs, vs.order, target).entries;
  }

  /** Only statuses changed, and the target alone is ACTIVE. */
  ghost predicate OneActive(vs: Versions, vs': Versions, target: string) {
    && vs'.order == vs.order && vs'.entries.Keys == vs.entries.Keys
    && (forall v :: v in vs.entries ==> (vs'.entries[v].status == ACTIVE <==> v == target))
    && (forall v :: v in vs.entries ==> vs'.entries[v] == vs.entries[v].(status := vs'.entries[v].status))
  }

  lemma RolledIsFiled(vs: Versions, home: string, id: string, target: string)
    requires FiledVersions(vs, home, id) && target in vs.entries
    ensures FiledVersions(Partly(vs, vs.order, target), home, id)
    ensures OneActive(vs, Partly(vs, vs.order, target), target)
  {
  }

  lemma RolledHighest(vs: Versions, home: string, id: string, target: string, parse: VersionParser)
    requires FiledVersions(vs, home, id) && target in vs.entries
    ensures HighestActive(Partly(vs, vs.order, target), parse) == Some(Restated(vs.entries[target], target))
  {
    var vs' := Partly(vs, vs.order, target);
    RolledIsFiled(vs, home, id, target);
    assert IsActive(vs', target);
    HighestActiveExactly(vs', parse, home, id);
  }

  lemma HomeHolds(s: Store, id: string, tenant: string)
    requires Filed(s) && Resolve(s, id, tenant).Some?
    ensures var home := Home(s, id, tenant);
            && home in s && id in s[home].entries && s[home].entries[id] == Resolve(s, id, tenant).value
            && FiledPartition(s[home], home) && FiledVersions(Resolve(s, id, tenant).value, home, id)
  {
  }

  /** Only the resolved parser's versions change. */
  lemma RollbackFrame(s: Store, id: string, target: string, tenant: string)
    requires Filed(s) && RolledBack(s, id, target, tenant).Some?
    ensures var s', home, vs := RolledBack(s, id, target, tenant).value, Home(s, id, tenant),
            Resolve(s, id, tenant).value;
            && Home(s', id, tenant) == home && Resolve(s', id, tenant) == Some(Partly(vs, vs.order, target))
            && s' - {home} == s - {home} && s'[home].entries - {id} == s[home].entries - {id}
            && s'[home].order == s[home].order
  {
    HomeHolds(s, id, tenant);
  }

  /**
   After a rollback the target is the one ACTIVE version of the resolved parser
   and an unversioned `get` returns it.
   */
  lemma RollbackExactly(s: Store, id: string, target: string, tenant: string, parse: VersionParser)
    requires Filed(s) && RolledBack(s, id, target, tenant).Some?
    ensures var s' := RolledBack(s, id, target, tenant).value;
            && Resolve(s', id, tenant).Some?
            && OneActive(Resolve(s, id, tenant).value, Resolve(s', id, tenant).value, target)
            && Get(s', id, None, tenant, parse) == Some(Restated(Resolve(s, id, tenant).value.entries[target], target))
  {
    var vs, home := Resolve(s, id, tenant).value, Home(s, id, tenant);
    HomeHolds(s, id, tenant);
    RollbackFrame(s, id, target, tenant);
    RolledIsFiled(vs, home, id, target);
    RolledHighest(vs, home, id, target, parse);
  }

  /** Every resolved version already has the status the rollback gives it. */
  ghost predicate AlreadyRolledBack(s: Store, id: string, target: string, tenant: string) {
    Resolve(s, id, tenant).Some? &&
    var vs := Resolve(s, id, tenant).value;
    forall v :: v in vs.entries ==> (vs.entries[v].status == if v == target then ACTIVE else DISABLED)
  }

  lemma UnchangedExactly(vs: Versions, home: string, id: string, target: string)
    requires FiledVersions(vs, home, id)
    ensures Partly(vs, vs.order, target) == vs <==>
            forall v :: v in vs.entries ==> (vs.entries[v].status == if v == target then ACTIVE else DISABLED)
  {
    var vs' := Partly(vs, vs.order, target);
    if forall v :: v in vs.entries ==> (vs.entries[v].status == if v == target then ACTIVE else DISABLED) {
      assert vs'.entries == vs.entries;
    } else {
      var v :| v in vs.entries && vs.entries[v].status != if v == target then ACTIVE else DISABLED;
      assert vs'.entries[v] != vs.entries[v];
    }
  }

  /**
   A rollback leaves another tenant's view alone exactly when the tenant rolls
   back a copy of its own, or when there was nothing to change.
   */
  lemma RollbackIsolatedExactly(s: Store, id: string, target: string, tenant: string, other: string)
    requires Filed(s) && RolledBack(s, id, target, tenant).Some? && other != tenant
    ensures SameView(s, RolledBack(s, id, target, tenant).value, other) <==>
            Home(s, id, tenant) != "global" || AlreadyRolledBack(s, id, target, tenant)
  {
    var vs, home := Resolve(s, id, tenant).value, Home(s, id, tenant);
    HomeHolds(s, id, tenant);
    UnchangedExactly(vs, home, id, target);
    AssignedExactly(s[home], id, vs, Partly(vs, vs.order, target));
  }

  lemma AssignedExactly(p: Partition, id: string, vs: Versions, vs': Versions)
    requires p.Valid() && id in p.entries && p.entries[id] == vs
    ensures p.Assign(id, vs') == p <==> vs' == vs
  {
    assert p.entries[id := vs] == p.entries;
    assert p.Assign(id, vs').entries[id] == vs';
  }

  /** What a tenant that falls back reads of any version after such a rollback, and when that is what it read before. */
  lemma FallbackRollbackReachesOthers(
      s: Store, id: string, target: string, tenant: string, other: string, version: string, parse: VersionParser)
    requires Filed(s) && RolledBack(s, id, target, tenant).Some?
    requires Home(s, id, tenant) == Home(s, id, other) == "global"
    requires version != "" && version in Resolve(s, id, other).value.entries
    ensures var s', p := RolledBack(s, id, target, tenant).value, Resolve(s, id, other).value.entries[version];
            && Get(s', id, Some(version), other, parse) == Some(Restated(p, target))
            && (Get(s', id, Some(version), other, parse) == Get(s, id, Some(version), other, parse) <==>
                 p.status == if version == target then ACTIVE else DISABLED)
  {
    HomeHolds(s, id, tenant);
    HomeHolds(s, id, other);
    RollbackFrame(s, id, target, tenant);
  }

  class RegistryService {
    const repository: Repository

    constructor (repository: Repository)
      ensures this.repository == repository
    {
      this.repository := repository;
    }

    method RegisterParser(d: Parser, caller: string, isSystem: bool, valid: bool) returns (ok: bool)
      requires repository.Valid() && d.tenant != ""
      modifies repository
      ensures repository.Valid()
      ensures ok <==> Registered(old(repository.parsers), d, caller, isSystem, valid).Some?
      ensures repository.parsers ==
              if ok then Registered(old(repository.parsers), d, caller, isSystem, valid).value
                  else old(repository.parsers)
    {
      if !isSystem && caller != "global" {
        if d.tenant == "global" {
          return false;
        }
        if d.tenant != caller {
          return false;
        }
      }
      if !valid {
        return false;
      }
      repository.Save(d.(status := ACTIVE));
      return true;
    }

    method RollbackParser(id: string, target: string, tenant: string, parse: VersionParser) returns (r: Option<Parser>)
      requires repository.Valid()
      modifies repository
      ensures repository.Valid()
      ensures r.Some? <==> RolledBack(old(repository.parsers), id, target, tenant).Some?
      ensures r.None? ==> repository.parsers == old(repository.parsers)
      ensures r.Some? ==> Some(repository.parsers) == RolledBack(old(repository.parsers), id, target, tenant)
                          && r == Get(repository.parsers, id, None, tenant, parse)
    {
      var s := repository.parsers;
      var resolved := Resolve(s, id, tenant);
      if resolved.None? || target !in resolved.value.entries {
        return None;
      }
      HomeHolds(s, id, tenant);
      var versions := ListVersions(s, id, tenant, parse);
      SortMembers(resolved.value.order, Descending(resolved.value.order, parse));
      assert forall v :: v in versions <==> v in resolved.value.order;
      Restate(resolved.value, Home(s, id, tenant), id, target, versions);
      PartlyAll(resolved.value, versions, target);
      RollbackExactly(s, id, target, tenant, parse);
      r := Some(Restated(resolved.value.entries[target], target));
    }

    /** Saves each listed version with its new status. */
    method Restate(vs: Versions, ghost home: string, ghost id: string, target: string, versions: seq<string>)
      requires repository.Valid() && home in repository.parsers && id in repository.parsers[home].entries
      requires vs == repository.parsers[home].entries[id] && forall v :: v in versions ==> v in vs.entries
      modifies repository
      ensures repository.Valid()
      ensures var s := old(repository.parsers);
              Staged(repository.parsers, s, home, id, vs, versions, target)
    {
      ghost var s := repository.parsers;
      PartlyNone(s, home, id, vs, target);
      for i := 0 to |versions|
        invariant repository.Valid()
        invariant Staged(repository.parsers, s, home, id, vs, versions[..i], target)
      {
        var v := versions[i];
        assert versions[..i + 1] == versions[..i] + [v];
        StagedStep(repository.parsers, s, home, id, vs, versions[..i], v, target);
        repository.Save(Restated(vs.entries[v], target));
      }
      assert versions[..|versions|] == versions;
    }
  }
}
