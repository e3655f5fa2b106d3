/**
 Tenant-partitioned parser storage (M2/abcd-main/app/registry/repository.py):
 tenant, then parser id, then version.
 */
module ParserRepository {
  import opened Results
  import opened Orders
  import opened OrderedDicts

  datatype Status = ACTIVE | DISABLED | DEPRECATED

  /** A definition; an absent tenant was replaced by "global" when it was built. */
  datatype Parser = Parser(
    id: string, tenant: string, version: string, priority: int, status: Status,
    vendor: string, product: string, formats: seq<string>, patterns: seq<string>)

  type Versions = OrderedDict<Parser>
  type Partition = OrderedDict<Versions>
  type Store = map<string, Partition>

  const NOTHING: Partition := OrderedDict([], map[])

  function PartitionOf(s: Store, tenant: string): Partition {
    if tenant in s then s[tenant] else NOTHING
  }

  /** Dictionaries are consistent and every definition sits under its own tenant, id and version. */
  ghost predicate FiledVersions(vs: Versions, tenant: string, id: string) {
    && vs.Valid() && vs.order != []
    && forall v :: v in vs.entries ==> var p := vs.entries[v]; p.tenant == tenant && p.id == id && p.version == v
  }

  ghost predicate FiledPartition(p: Partition, tenant: string) {
    p.Valid() && forall id :: id in p.entries ==> FiledVersions(p.entries[id], tenant, id)
  }

  ghost predicate Filed(s: Store) {
    "" !in s && forall t :: t in s ==> FiledPartition(s[t], t)
  }

  // ---- save ----

  function SavedVersions(p: Partition, parser: Parser): Versions {
    var vs := if parser.id in p.entries then p.entries[parser.id] else OrderedDict([], map[]);
    vs.Assign(parser.version, parser)
  }

  function Saved(s: Store, parser: Parser): Store {
    var p := PartitionOf(s, parser.tenant);
    s[parser.tenant := p.Assign(parser.id, SavedVersions(p, parser))]
  }

  lemma SaveKeepsFiled(s: Store, parser: Parser)
    requires Filed(s) && parser.tenant != ""
    ensures Filed(Saved(s, parser))
  {
    var p := PartitionOf(s, parser.tenant);
    assert FiledVersions(SavedVersions(p, parser), parser.tenant, parser.id);
    assert FiledPartition(p.Assign(parser.id, SavedVersions(p, parser)), parser.tenant);
  }

  /** What a partition holds under an id and version. */
  function Under(p: Partition, id: string, version: string): Option<Parser> {
    if id in p.entries && version in p.entries[id].entries then Some(p.entries[id].entries[version]) else None
  }

  /** The definition stored for a tenant under an id and version. */
  function Stored(s: Store, tenant: string, id: string, version: string): Option<Parser> {
    Under(PartitionOf(s, tenant), id, version)
  }

  lemma SavedUnder(p: Partition, d: Parser, id: string, version: string)
    requires p.Valid() && (d.id in p.entries ==> p.entries[d.id].Valid())
    ensures Under(p.Assign(d.id, SavedVersions(p, d)), id, version) ==
            if id == d.id && version == d.version then Some(d) else Under(p, id, version)
  {
  }

  /** Saving stores the definition under its tenant, id and version, and alters nothing stored elsewhere. */
  lemma SavedExactly(s: Store, p: Parser, tenant: string, id: string, version: string)
    requires Filed(s)
    ensures Stored(Saved(s, p), tenant, id, version) ==
            if tenant == p.tenant && id == p.id && version == p.version then Some(p) else Stored(s, tenant, id, version)
  {
    var mine := PartitionOf(s, p.tenant);
    assert p.id in mine.entries ==> FiledVersions(mine.entries[p.id], p.tenant, p.id);
    SavedUnder(mine, p, id, version);
    assert PartitionOf(Saved(s, p), p.tenant) == mine.Assign(p.id, SavedVersions(mine, p));
    assert tenant != p.tenant ==> PartitionOf(Saved(s, p), tenant) == PartitionOf(s, tenant);
  }

  // ---- versions ----

  /** `packaging.version.parse` as a sort key; `None` where it raises. */
  type VersionParser = string -> Option<seq<int>>

  predicate AllParse(vs: seq<string>, parse: VersionParser) {
    forall i :: 0 <= i < |vs| ==> parse(vs[i]).Some?
  }

  /** Versions compare by their parsed keys, or as strings if any of them does not parse. */
  function VersionKey(allParse: bool, parse: VersionParser, v: string): seq<int> {
    if allParse && parse(v).Some? then parse(v).value else CodePoints(v)
  }

  predicate AtLeast(vs: seq<string>, parse: VersionParser, a: string, b: string) {
    LexLe(VersionKey(AllParse(vs, parse), parse, b), VersionKey(AllParse(vs, parse), parse, a))
  }

  function Descending(vs: seq<string>, parse: VersionParser): (string, string) -> bool {
    (a: string, b: string) => AtLeast(vs, parse, a, b)
  }

  lemma DescendingIsPreorder(vs: seq<string>, parse: VersionParser)
    ensures Preorder(Descending(vs, parse))
  {
    var all := AllParse(vs, parse);
    forall a, b ensures AtLeast(vs, parse, a, b) || AtLeast(vs, parse, b, a) {
      LexTotal(VersionKey(all, parse, a), VersionKey(all, parse, b));
    }
    forall a, b, c | AtLeast(vs, parse, a, b) && AtLeast(vs, parse, b, c) ensures AtLeast(vs, parse, a, c) {
      LexTransitive(VersionKey(all, parse, c), VersionKey(all, parse, b), VersionKey(all, parse, a));
    }
  }

  /** The first ACTIVE version along the list. */
  function FirstActive(order: seq<string>, vs: Versions): Option<Parser> {
    if order == [] then None
    else if order[0] in vs.entries && vs.entries[order[0]].status == ACTIVE then Some(vs.entries[order[0]])
    else FirstActive(order[1..], vs)
  }

  lemma FirstActiveAt(order: seq<string>, i: nat, vs: Versions)
    requires i < |order|
    ensures FirstActive(order[i..], vs) ==
            if order[i] in vs.entries && vs.entries[order[i]].status == ACTIVE then Some(vs.entries[order[i]])
            else FirstActive(order[i + 1..], vs)
  {
    assert order[i..][1..] == order[i + 1..];
  }

  lemma {:induction false} FirstActiveFound(order: seq<string>, vs: Versions) returns (k: nat)
    ensures FirstActive(order, vs).None? ==>
              forall i :: 0 <= i < |order| ==> !(order[i] in vs.entries && vs.entries[order[i]].status == ACTIVE)
    ensures FirstActive(order, vs).Some? ==>
              && k < |order| && order[k] in vs.entries && vs.entries[order[k]].status == ACTIVE
              && FirstActive(order, vs) == Some(vs.entries[order[k]])
              && forall i :: 0 <= i < k ==> !(order[i] in vs.entries && vs.entries[order[i]].status == ACTIVE)
  {
    k := 0;
    if order != [] && !(order[0] in vs.entries && vs.entries[order[0]].status == ACTIVE) {
      var j := FirstActiveFound(order[1..], vs);
      k := j + 1;
      assert forall i :: 1 <= i < |order| ==> order[i] == order[1..][i - 1];
    }
  }

  function HighestActive(vs: Versions, parse: VersionParser): Option<Parser> {
    Choose(Sort(vs.order, Descending(vs.order, parse)), vs)
  }

  /** Along the given order: the first ACTIVE version, else the first. */
  function Choose(sorted: seq<string>, vs: Versions): Option<Parser> {
    var active := FirstActive(sorted, vs);
    if active.Some? then active
    else if sorted != [] && sorted[0] in vs.entries then Some(vs.entries[sorted[0]])
    else None
  }

  ghost predicate IsActive(vs: Versions, v: string) {
    v in vs.entries && vs.entries[v].status == ACTIVE
  }

  /** `b` does not come before `a`: by parsed version if all of `vs` parse, else as strings. */
  ghost predicate NoLater(vs: seq<string>, parse: VersionParser, b: string, a: string) {
    if forall v :: v in vs ==> parse(v).Some?
    then parse(a).Some? && parse(b).Some? && LexLe(parse(b).value, parse(a).value)
    else LexLe(CodePoints(b), CodePoints(a))
  }

  lemma AtLeastMeans(vs: seq<string>, parse: VersionParser, a: string, b: string)
    requires a in vs && b in vs
    ensures AtLeast(vs, parse, a, b) <==> NoLater(vs, parse, b, a)
  {
    assert AllParse(vs, parse) <==> forall v :: v in vs ==> parse(v).Some?;
  }

  /** The greatest ACTIVE version; only if none is ACTIVE, the greatest of all. */
  lemma HighestActiveExactly(vs: Versions, parse: VersionParser, tenant: string, id: string)
    requires FiledVersions(vs, tenant, id)
    ensures var r := HighestActive(vs, parse);
            && r.Some? && r.value.version in vs.entries && vs.entries[r.value.version] == r.value
            && ((exists v :: IsActive(vs, v)) ==> r.value.status == ACTIVE)
            && (forall v :: v in vs.entries && (IsActive(vs, v) || r.value.status != ACTIVE) ==>
                NoLater(vs.order, parse, v, r.value.version))
  {
    var le := Descending(vs.order, parse);
    var sorted := Sort(vs.order, le);
    DescendingIsPreorder(vs.order, parse);
    SortSorts(vs.order, le);
    SortMembers(vs.order, le);
    var k := FirstActiveFound(sorted, vs);
    forall v | IsActive(vs, v) ensures FirstActive(sorted, vs).Some? {
      assert v in sorted;
    }
    var at := if FirstActive(sorted, vs).Some? then k else 0;
    forall v | v in vs.entries && (IsActive(vs, v) || FirstActive(sorted, vs).None?)
      ensures NoLater(vs.order, parse, v, sorted[at])
    {
      assert v in sorted;
      var j :| 0 <= j < |sorted| && sorted[j] == v;
      assert le(v, v);
      assert j == at || le(sorted[at], sorted[j]);
      AtLeastMeans(vs.order, parse, sorted[at], v);
    }
    assert sorted[at] in vs.order;
  }

  // ---- get ----

  /** The versions a request resolves to: the tenant's own, else the global ones. */
  function Resolve(s: Store, id: string, tenant: string): Option<Versions> {
    if tenant != "" && id in PartitionOf(s, tenant).entries then Some(PartitionOf(s, tenant).entries[id])
    else if id in PartitionOf(s, "global").entries then Some(PartitionOf(s, "global").entries[id])
    else None
  }

  function Pick(vs: Versions, version: Option<string>, parse: VersionParser): Option<Parser> {
    if version.Some? && version.value != "" then
      if version.value in vs.entries then Some(vs.entries[version.value]) else None
    else HighestActive(vs, parse)
  }

  function Get(s: Store, id: string, version: Option<string>, tenant: string, parse: VersionParser): Option<Parser> {
    match Resolve(s, id, tenant)
    case Some(vs) => Pick(vs, version, parse)
    case None => None
  }

  // ---- lists ----

  /** The ACTIVE, wanted answers for the given ids. */
  function Collect(
      s: Store, ids: seq<string>, tenant: string, parse: VersionParser, wanted: Parser -> bool): seq<Parser> {
    if ids == [] then []
    else
      var p := Get(s, ids[0], None, tenant, parse);
      (if p.Some? && p.value.status == ACTIVE && wanted(p.value) then [p.value] else [])
      + Collect(s, ids[1..], tenant, parse, wanted)
  }

  function PriorityLe(): (Parser, Parser) -> bool {
    (a: Parser, b: Parser) => a.priority <= b.priority
  }

  function IdsOf(ps: seq<Parser>): (r: seq<string>)
    ensures forall x :: x in r <==> exists p :: p in ps && p.id == x
  {
    if ps == [] then [] else
      assert ps == [ps[0]] + ps[1..];
      [ps[0].id] + IdsOf(ps[1..])
  }

  function Unlisted(seen: seq<string>): string -> bool {
    id => id !in seen
  }

  function OwnList(s: Store, tenant: string, parse: VersionParser, wanted: Parser -> bool): seq<Parser> {
    if tenant != "" && tenant != "global" then Collect(s, PartitionOf(s, tenant).order, tenant, parse, wanted) else []
  }

  function BaseList(s: Store, tenant: string, parse: VersionParser, wanted: Parser -> bool): seq<Parser> {
    var seen := IdsOf(OwnList(s, tenant, parse, wanted));
    Collect(s, Filter(PartitionOf(s, "global").order, Unlisted(seen)), "global", parse, wanted)
  }

  /** `list_for_tenant`: the tenant's parsers over the global baseline, by priority. */
  function ListFor(
      s: Store, tenant: string, includeGlobal: bool, parse: VersionParser, wanted: Parser -> bool): seq<Parser> {
    Sort(OwnList(s, tenant, parse, wanted) + if includeGlobal
        then BaseList(s, tenant, parse, wanted) else [], PriorityLe())
  }

  function ListVersions(s: Store, id: string, tenant: string, parse: VersionParser): seq<string> {
    match Resolve(s, id, tenant)
    case Some(vs) => Sort(vs.order, Descending(vs.order, parse))
    case None => []
  }

  /** Versions are listed from the latest to the earliest, each once. */
  lemma VersionsDescend(s: Store, id: string, tenant: string, parse: VersionParser)
    requires Filed(s) && Resolve(s, id, tenant).Some?
    ensures var order, list := Resolve(s, id, tenant).value.order, ListVersions(s, id, tenant, parse);
            && multiset(list) == multiset(order)
            && forall i, j :: 0 <= i < j < |list| ==> NoLater(order, parse, list[j], list[i])
  {
    var order, list := Resolve(s, id, tenant).value.order, ListVersions(s, id, tenant, parse);
    DescendingIsPreorder(order, parse);
    SortSorts(order, Descending(order, parse));
    SortMembers(order, Descending(order, parse));
    forall i, j | 0 <= i < j < |list| ensures NoLater(order, parse, list[j], list[i]) {
      assert list[i] in order && list[j] in order && AtLeast(order, parse, list[i], list[j]);
      AtLeastMeans(order, parse, list[i], list[j]);
    }
  }

  // ---- reads see the tenant's own partition and the global one ----

  ghost predicate SameView(s: Store, s': Store, tenant: string) {
    PartitionOf(s, tenant) == PartitionOf(s', tenant) && PartitionOf(s, "global") == PartitionOf(s', "global")
  }

  lemma {:induction false} CollectSeesOwn(
      s: Store, s': Store, ids: seq<string>, tenant: string, parse: VersionParser, wanted: Parser -> bool)
    requires SameView(s, s', tenant)
    ensures Collect(s, ids, tenant, parse, wanted) == Collect(s', ids, tenant, parse, wanted)
  {
    if ids != [] {
      CollectSeesOwn(s, s', ids[1..], tenant, parse, wanted);
    }
  }

  /** No read of a tenant depends on any third partition. */
  lemma ReadsSeeOwnView(s: Store, s': Store, tenant: string, parse: VersionParser)
    requires SameView(s, s', tenant)
    ensures forall id, version :: Get(s, id, version, tenant, parse) == Get(s', id, version, tenant, parse)
    ensures forall id :: ListVersions(s, id, tenant, parse) == ListVersions(s', id, tenant, parse)
    ensures forall includeGlobal, wanted ::
              ListFor(s, tenant, includeGlobal, parse, wanted) == ListFor(s', tenant, includeGlobal, parse, wanted)
  {
    forall includeGlobal, wanted
      ensures ListFor(s, tenant, includeGlobal, parse, wanted) == ListFor(s', tenant, includeGlobal, parse, wanted)
    {
      ListSeesOwn(s, s', tenant, includeGlobal, parse, wanted);
    }
  }

  lemma ListSeesOwn(
      s: Store, s': Store, tenant: string, includeGlobal: bool, parse: VersionParser, wanted: Parser -> bool)
    requires SameView(s, s', tenant)
    ensures ListFor(s, tenant, includeGlobal, parse, wanted) == ListFor(s', tenant, includeGlobal, parse, wanted)
  {
    CollectSeesOwn(s, s', PartitionOf(s, tenant).order, tenant, parse, wanted);
    var seen := IdsOf(OwnList(s, tenant, parse, wanted));
    CollectSeesOwn(s, s', Filter(PartitionOf(s, "global").order, Unlisted(seen)), "global", parse, wanted);
  }

  // ---- what a list holds ----

  lemma {:induction false} CollectMembers(
      s: Store, ids: seq<string>, tenant: string, parse: VersionParser, wanted: Parser -> bool, p: Parser)
    ensures p in Collect(s, ids, tenant, parse, wanted) <==>
            p.status == ACTIVE && wanted(p) && exists id :: id in ids && Get(s, id, None, tenant, parse) == Some(p)
  {
    if ids != [] {
      CollectMembers(s, ids[1..], tenant, parse, wanted, p);
      assert forall id :: id in ids <==> id == ids[0] || id in ids[1..];
    }
  }

  lemma GetIsFiled(s: Store, id: string, tenant: string, parse: VersionParser)
    requires Filed(s)
    ensures var r := Get(s, id, None, tenant, parse);
            && (r.Some? <==> Resolve(s, id, tenant).Some?)
            && (r.Some? ==> r.value.id == id && r.value.tenant == if tenant != ""
                && id in PartitionOf(s, tenant).entries then tenant else "global")
  {
    if tenant != "" && id in PartitionOf(s, tenant).entries {
      HighestActiveExactly(PartitionOf(s, tenant).entries[id], parse, tenant, id);
    } else if id in PartitionOf(s, "global").entries {
      HighestActiveExactly(PartitionOf(s, "global").entries[id], parse, "global", id);
    }
  }

  /** What the tenant's own partition (or the global one) offers under an id. */
  predicate Offers(s: Store, tenant: string, parse: VersionParser, wanted: Parser -> bool, p: Parser) {
    && p.id in PartitionOf(s, tenant).entries && Get(s, p.id, None, tenant, parse) == Some(p)
    && p.status == ACTIVE && wanted(p)
  }

  lemma CollectOffers(
      s: Store, ids: seq<string>, tenant: string, parse: VersionParser, wanted: Parser -> bool, p: Parser)
    requires Filed(s) && tenant != "" && forall id :: id in ids ==> id in PartitionOf(s, tenant).entries
    ensures p in Collect(s, ids, tenant, parse, wanted) <==> p.id in ids && Offers(s, tenant, parse, wanted, p)
  {
    CollectMembers(s, ids, tenant, parse, wanted, p);
    forall id | id in ids ensures Get(s, id, None, tenant, parse) == Some(p) ==> p.id == id {
      GetIsFiled(s, id, tenant, parse);
    }
  }

  lemma OwnListOffers(s: Store, tenant: string, parse: VersionParser, wanted: Parser -> bool, p: Parser)
    requires Filed(s)
    ensures p in OwnList(s, tenant, parse, wanted) <==>
            tenant != "" && tenant != "global" && Offers(s, tenant, parse, wanted, p)
  {
    if tenant != "" {
      assert PartitionOf(s, tenant).Valid();
      CollectOffers(s, PartitionOf(s, tenant).order, tenant, parse, wanted, p);
    }
  }

  /** The tenant's own part lists something under this id. */
  ghost predicate Overlaid(s: Store, tenant: string, parse: VersionParser, wanted: Parser -> bool, id: string) {
    tenant != "" && tenant != "global" && exists q: Parser :: q.id == id && Offers(s, tenant, parse, wanted, q)
  }

  lemma OwnIds(s: Store, tenant: string, parse: VersionParser, wanted: Parser -> bool, id: string)
    requires Filed(s)
    ensures id in IdsOf(OwnList(s, tenant, parse, wanted)) <==> Overlaid(s, tenant, parse, wanted, id)
  {
    forall q ensures q in OwnList(s, tenant, parse, wanted) <==>
                     tenant != "" && tenant != "global" && Offers(s, tenant, parse, wanted, q) {
      OwnListOffers(s, tenant, parse, wanted, q);
    }
  }

  lemma BaseListOffers(s: Store, tenant: string, parse: VersionParser, wanted: Parser -> bool, p: Parser)
    requires Filed(s)
    ensures p in BaseList(s, tenant, parse, wanted) <==>
            Offers(s, "global", parse, wanted, p) && !Overlaid(s, tenant, parse, wanted, p.id)
  {
    var seen := IdsOf(OwnList(s, tenant, parse, wanted));
    var all := PartitionOf(s, "global").order;
    assert PartitionOf(s, "global").Valid();
    FilterMembers(all, Unlisted(seen));
    CollectOffers(s, Filter(all, Unlisted(seen)), "global", parse, wanted, p);
    OwnIds(s, tenant, parse, wanted, p.id);
  }

  /**
   A list holds, by ascending priority, what the tenant's own partition offers
   and what the global one offers under ids the tenant does not overlay.
   */
  lemma ListExactly(
      s: Store, tenant: string, includeGlobal: bool, parse: VersionParser, wanted: Parser -> bool, p: Parser)
    requires Filed(s)
    ensures var ps := ListFor(s, tenant, includeGlobal, parse, wanted);
            forall i, j :: 0 <= i < j < |ps| ==> ps[i].priority <= ps[j].priority
    ensures p in ListFor(s, tenant, includeGlobal, parse, wanted) <==>
            || (tenant != "" && tenant != "global" && Offers(s, tenant, parse, wanted, p))
            || (includeGlobal && Offers(s, "global", parse, wanted, p) && !Overlaid(s, tenant, parse, wanted, p.id))
  {
    var own := OwnList(s, tenant, parse, wanted);
    var base := if includeGlobal then BaseList(s, tenant, parse, wanted) else [];
    SortMembers(own + base, PriorityLe());
    SortSorts(own + base, PriorityLe());
    OwnListOffers(s, tenant, parse, wanted, p);
    BaseListOffers(s, tenant, parse, wanted, p);
  }

  // ---- the repository object ----

  lemma {:induction false} CollectSnoc(
      s: Store, ids: seq<string>, id: string, tenant: string, parse: VersionParser, wanted: Parser -> bool)
    ensures var p := Get(s, id, None, tenant, parse);
            Collect(s, ids + [id], tenant, parse, wanted) ==
            Collect(s, ids, tenant, parse, wanted) + if p.Some? && p.value.status == ACTIVE
                && wanted(p.value) then [p.value] else []
  {
    if ids == [] {
      assert [] + [id] == [id] && [id][1..] == [];
    } else {
      assert (ids + [id])[1..] == ids[1..] + [id];
      CollectSnoc(s, ids[1..], id, tenant, parse, wanted);
    }
  }

  lemma NoGlobalNoBase(s: Store, tenant: string, parse: VersionParser, wanted: Parser -> bool)
    ensures "global" !in s ==> BaseList(s, tenant, parse, wanted) == []
  {
    if "global" !in s {
      assert Filter(NOTHING.order, Unlisted(IdsOf(OwnList(s, tenant, parse, wanted)))) == [];
    }
  }

  class Repository {
    var parsers: Store

    ghost predicate Valid()
      reads this
    {
      Filed(parsers)
    }

    constructor ()
      ensures Valid() && parsers == map[]
    {
      parsers := map[];
    }

    method Save(parser: Parser)
      requires Valid() && parser.tenant != ""
      modifies this
      ensures Valid() && parsers == Saved(old(parsers), parser)
    {
      SaveKeepsFiled(parsers, parser);
      var partition := if parser.tenant in parsers then parsers[parser.tenant] else OrderedDict([], map[]);
      var vs := if parser.id in partition.entries then partition.entries[parser.id] else OrderedDict([], map[]);
      parsers := parsers[parser.tenant := partition.Assign(parser.id, vs.Assign(parser.version, parser))];
    }

    method GetHighestActiveVersion(vs: Versions, parse: VersionParser) returns (r: Option<Parser>)
      requires vs.Valid()
      ensures r == HighestActive(vs, parse)
    {
      var sorted := Sort(vs.order, Descending(vs.order, parse));
      SortMembers(vs.order, Descending(vs.order, parse));
      r := ChooseVersion(sorted, vs);
    }

    method ChooseVersion(sorted: seq<string>, vs: Versions) returns (r: Option<Parser>)
      requires forall v :: v in sorted ==> v in vs.entries
      ensures r == Choose(sorted, vs)
    {
      var i := 0;
      while i < |sorted|
        invariant 0 <= i <= |sorted|
        invariant FirstActive(sorted, vs) == FirstActive(sorted[i..], vs)
      {
        FirstActiveAt(sorted, i, vs);
        if vs.entries[sorted[i]].status == ACTIVE {
          return Some(vs.entries[sorted[i]]);
        }
        i := i + 1;
      }
      if sorted != [] {
        return Some(vs.entries[sorted[0]]);
      }
      return None;
    }

    method GetParser(
        id: string, version: Option<string>, tenant: string, parse: VersionParser) returns (r: Option<Parser>)
      requires Valid()
      ensures r == Get(parsers, id, version, tenant, parse)
    {
      var vs;
      if tenant != "" && tenant in parsers && id in parsers[tenant].entries {
        vs := parsers[tenant].entries[id];
        assert FiledVersions(vs, tenant, id);
      } else if "global" in parsers && id in parsers["global"].entries {
        vs := parsers["global"].entries[id];
        assert FiledVersions(vs, "global", id);
      } else {
        return None;
      }
      if version.Some? && version.value != "" {
        return if version.value in vs.entries then Some(vs.entries[version.value]) else None;
      }
      r := GetHighestActiveVersion(vs, parse);
    }

    /** The ACTIVE and wanted answers for some ids, in order. */
    method Gather(
        ids: seq<string>, tenant: string, parse: VersionParser, wanted: Parser -> bool) returns (r: seq<Parser>)
      requires Valid()
      ensures r == Collect(parsers, ids, tenant, parse, wanted)
    {
      r := [];
      for i := 0 to |ids|
        invariant r == Collect(parsers, ids[..i], tenant, parse, wanted)
      {
        assert ids[..i + 1] == ids[..i] + [ids[i]];
        CollectSnoc(parsers, ids[..i], ids[i], tenant, parse, wanted);
        var p := GetParser(ids[i], None, tenant, parse);
        if p.Some? && p.value.status == ACTIVE && wanted(p.value) {
          r := r + [p.value];
        }
      }
      assert ids[..|ids|] == ids;
    }

    method ListForTenant(
        tenant: string, includeGlobal: bool, parse: VersionParser, wanted: Parser -> bool) returns (r: seq<Parser>)
      requires Valid()
      ensures r == ListFor(parsers, tenant, includeGlobal, parse, wanted)
    {
      var own, base := [], [];
      if tenant != "" && tenant != "global" && tenant in parsers {
        own := Gather(parsers[tenant].order, tenant, parse, wanted);
      }
      if includeGlobal && "global" in parsers {
        base := Gather(Filter(parsers["global"].order, Unlisted(IdsOf(own))), "global", parse, wanted);
      }
      NoGlobalNoBase(parsers, tenant, parse, wanted);
      r := Sort(own + base, PriorityLe());
    }
  }
}
