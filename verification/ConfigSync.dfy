/**
 The configuration synchronisation worker (integration/config_sync/config_worker.py):
 version ordering, the acknowledgement state machine of one call, and what
 every sequence of calls keeps.
 */
module ConfigSync {
  import opened Results
  import opened Orders

  // ---- versions ----

  /** What version parsing takes from Python: whitespace and `int()`. */
  datatype Text = Text(isSpace: char -> bool, toInt: string -> Option<int>)

  function TrimLeft(s: string, drop: char -> bool): string {
    if s != "" && drop(s[0]) then TrimLeft(s[1..], drop) else s
  }

  function TrimRight(s: string, drop: char -> bool): string {
    if s != "" && drop(s[|s| - 1]) then TrimRight(s[..|s| - 1], drop) else s
  }

  function UpTo(s: string, c: char): string {
    if s == "" || s[0] == c then "" else [s[0]] + UpTo(s[1..], c)
  }

  /** `s.split(c)`: never empty. */
  function Split(s: string, c: char): (r: seq<string>)
    ensures r != []
  {
    if s == "" then [""]
    else if s[0] == c then [""] + Split(s[1..], c)
    else
      var rest := Split(s[1..], c);
      [[s[0]] + rest[0]] + rest[1..]
  }

  function NumberOr0(part: string, t: Text): int {
    match t.toInt(part) case Some(n) => n case None => 0
  }

  /** The three-component version a string denotes. */
  function ParseSemver(v: string, t: Text): (r: seq<int>)
    ensures |r| == 3
  {
    var clean := UpTo(TrimLeft(TrimRight(TrimLeft(v, t.isSpace), t.isSpace), c => c == 'v'), '-');
    var parts := Map(Split(clean, '.'), part => NumberOr0(part, t));
    (parts + [0, 0, 0])[..3]
  }

  /** The parsing loop, the padding loop and the truncation of the source. */
  method ParseSemverLoop(v: string, t: Text) returns (r: seq<int>)
    ensures r == ParseSemver(v, t)
  {
    var clean := UpTo(TrimLeft(TrimRight(TrimLeft(v, t.isSpace), t.isSpace), c => c == 'v'), '-');
    var pieces := Split(clean, '.');
    ghost var mapped := Map(pieces, part => NumberOr0(part, t));
    var parts: seq<int> := [];
    for i := 0 to |pieces|
      invariant parts == mapped[..i]
    {
      var n := t.toInt(pieces[i]);
      parts := parts + [if n.Some? then n.value else 0];
    }
    while |parts| < 3
      invariant |mapped| <= |parts| && (|parts| <= 3 || parts == mapped)
      invariant parts == mapped + seq(|parts| - |mapped|, _ => 0)
    {
      parts := parts + [0];
    }
    r := parts[..3];
  }

  /** Strictly newer in the order the stale check uses. */
  predicate Newer(a: string, b: string, t: Text) {
    !LexLe(ParseSemver(a, t), ParseSemver(b, t))
  }

  /** The comparison goes by major, then minor, then patch. */
  lemma NewerExactly(a: string, b: string, t: Text)
    ensures var x, y := ParseSemver(a, t), ParseSemver(b, t);
            Newer(a, b, t) <==>
            x[0] > y[0] || (x[0] == y[0] && (x[1] > y[1] || (x[1] == y[1] && x[2] > y[2])))
  {
    var x, y := ParseSemver(a, t), ParseSemver(b, t);
    assert LexLe(x[1..], y[1..]) <==> x[1] < y[1] || (x[1] == y[1] && LexLe(x[2..], y[2..])) by {
      assert x[1..][1..] == x[2..] && y[1..][1..] == y[2..];
    }
    assert LexLe(x[2..], y[2..]) <==> x[2] <= y[2];
  }

  lemma NewerIsStrictOrder(a: string, b: string, c: string, t: Text)
    ensures !Newer(a, a, t)
    ensures Newer(a, b, t) && Newer(b, c, t) ==> Newer(a, c, t)
    ensures Newer(a, b, t) ==> !Newer(b, a, t)
  {
    var x, y, z := ParseSemver(a, t), ParseSemver(b, t), ParseSemver(c, t);
    LexTotal(x, x);
    LexTotal(x, y);
    LexTotal(y, z);
    if Newer(a, b, t) && Newer(b, c, t) && LexLe(x, z) {
      LexTransitive(x, z, y);
    }
  }

  // ---- how a version is written ----

  function Join(parts: seq<string>, c: char): string
    requires parts != []
  {
    if |parts| == 1 then parts[0] else parts[0] + [c] + Join(parts[1..], c)
  }

  function Repeated(c: char, n: nat): string {
    seq(n, _ => c)
  }

  lemma {:induction false} TrimLeftIs(a: string, b: string, drop: char -> bool)
    requires (forall c :: c in a ==> drop(c)) && (b != "" ==> !drop(b[0]))
    ensures TrimLeft(a + b, drop) == b
  {
    if a == "" {
      assert a + b == b;
    } else {
      assert (a + b)[1..] == a[1..] + b;
      TrimLeftIs(a[1..], b, drop);
    }
  }

  lemma {:induction false} TrimRightIs(a: string, b: string, drop: char -> bool)
    requires (forall c :: c in b ==> drop(c)) && (a != "" ==> !drop(a[|a| - 1]))
    ensures TrimRight(a + b, drop) == a
    decreases |b|
  {
    if b == "" {
      assert a + b == a;
    } else {
      var n := |b| - 1;
      assert (a + b)[..|a + b| - 1] == a + b[..n];
      assert (a + b)[|a + b| - 1] == b[n];
      TrimRightIs(a, b[..n], drop);
    }
  }

  lemma {:induction false} UpToIs(a: string, b: string, c: char)
    requires c !in a && (b != "" ==> b[0] == c)
    ensures UpTo(a + b, c) == a
  {
    if a == "" {
      assert a + b == b;
    } else {
      assert (a + b)[1..] == a[1..] + b;
      UpToIs(a[1..], b, c);
    }
  }

  lemma {:induction false} SplitHead(a: string, b: string, c: char)
    requires c !in a
    ensures Split(a + [c] + b, c) == [a] + Split(b, c)
    ensures Split(a, c) == [a]
  {
    var s := a + [c] + b;
    if a == "" {
      assert s == [c] + b && s[1..] == b;
    } else {
      assert s[1..] == a[1..] + [c] + b;
      SplitHead(a[1..], b, c);
      assert [a[0]] + a[1..] == a;
    }
  }

  /** Splitting undoes joining. */
  lemma {:induction false} SplitJoined(parts: seq<string>, c: char)
    requires parts != [] && forall i :: 0 <= i < |parts| ==> c !in parts[i]
    ensures Split(Join(parts, c), c) == parts
  {
    SplitHead(parts[0], "", c);
    if |parts| > 1 {
      SplitHead(parts[0], Join(parts[1..], c), c);
      SplitJoined(parts[1..], c);
      assert parts == [parts[0]] + parts[1..];
    }
  }

  lemma {:induction false} NotInJoined(parts: seq<string>, c: char, x: char)
    requires parts != [] && x != c && forall i :: 0 <= i < |parts| ==> x !in parts[i]
    ensures x !in Join(parts, c)
  {
    if |parts| > 1 {
      NotInJoined(parts[1..], c, x);
    }
  }

  /** A version as written: parts joined by dots, after any letters `v` and before any suffix with a dash. */
  function Written(vs: nat, parts: seq<string>, suffix: string): string
    requires parts != []
  {
    Repeated('v', vs) + (Join(parts, '.') + suffix)
  }

  predicate WellWritten(vs: nat, parts: seq<string>, suffix: string, t: Text) {
    && parts != [] && (forall i :: 0 <= i < |parts| ==> '.' !in parts[i] && '-' !in parts[i])
    && (suffix != "" ==> suffix[0] == '-') && (Join(parts, '.') != "" ==> Join(parts, '.')[0] != 'v')
    && var w := Written(vs, parts, suffix); w != "" ==> !t.isSpace(w[0]) && !t.isSpace(w[|w| - 1])
  }

  lemma CleanedIs(left: string, vs: nat, parts: seq<string>, suffix: string, right: string, t: Text)
    requires WellWritten(vs, parts, suffix, t) && forall c :: c in left || c in right ==> t.isSpace(c)
    ensures TrimRight(TrimLeft(left + (Written(vs, parts, suffix) + right), t.isSpace), t.isSpace) ==
            Written(vs, parts, suffix)
  {
    var w := Written(vs, parts, suffix);
    if w == "" {
      assert left + (w + right) == (left + right) + "";
      TrimLeftIs(left + right, "", t.isSpace);
    } else {
      TrimLeftIs(left, w + right, t.isSpace);
      TrimRightIs(w, right, t.isSpace);
    }
  }

  /**
   The parsed version is the first three dot-separated parts, each as a number or 0,
   whatever white space is around, how many `v` come first, and what follows a dash.
   */
  lemma ParsesWritten(left: string, vs: nat, parts: seq<string>, suffix: string, right: string, t: Text)
    requires WellWritten(vs, parts, suffix, t) && forall c :: c in left || c in right ==> t.isSpace(c)
    ensures var r := ParseSemver(left + (Written(vs, parts, suffix) + right), t);
            forall i :: 0 <= i < 3 ==>
              r[i] == if i < |parts| && t.toInt(parts[i]).Some? then t.toInt(parts[i]).value else 0
  {
    var isV := (c: char) => c == 'v';
    var joined := Join(parts, '.');
    CleanedIs(left, vs, parts, suffix, right, t);
    TrimLeftIs(Repeated('v', vs), joined + suffix, isV);
    NotInJoined(parts, '.', '-');
    UpToIs(joined, suffix, '-');
    SplitJoined(parts, '.');
  }

  // ---- calls ----

  /** A payload: its `id` ("" if absent) and its content. */
  datatype Payload = Payload(id: string, body: string)

  /** A distribution event; absent strings are "", and a payload that is not a dictionary is `None`. */
  datatype ConfigEvent = ConfigEvent(
    distributionId: string, entityId: string, version: string, configType: string, tenantId: string,
        payload: Option<Payload>)

  /**
   One call: the event, the requested module ("" if none), the caller's flags, and
   what the outside world answers (whether applying raises, whether the runtime
   is verified to have adopted the configuration).
   */
  datatype Call = Call(
    ev: ConfigEvent, target: string, restart: bool, reload: bool, verify: bool, raises: bool, verified: bool)

  datatype ConfigState = Materialized | ReloadRequired | RestartRequired | Active | Failed

  datatype Status = Applied | NeedsRestart | NeedsReload | OnlyMaterialized | Rejected

  datatype Ack = Ack(distributionId: string, configId: string, version: string, mod: string, status: Status,
      state: ConfigState, duplicate: bool)

  datatype State = State(distributions: map<string, Ack>, active: map<string, string>, configs: map<string, Payload>)

  function Or(s: string, default: string): string {
    if s == "" then default else s
  }

  function ScopeKey(mod: string, tenant: string, entity: string): string {
    mod + ":" + Or(tenant, "global") + ":" + Or(entity, "default")
  }

  /** The module each configuration type has to go to. */
  const EXPECTED_MODULES: map<string, string> := map[
    "sources" := "M1", "ingestion" := "M1", "parsers" := "M2", "parser" := "M2",
    "schemas" := "M3", "mappings" := "M3", "mapping" := "M3", "enrichment" := "M4", "enrichment_rules" := "M4",
    "policies" := "M5", "policy" := "M5", "routing" := "M5"]

  /** The module inferred from a configuration type when none is asked for. */
  function OwnerOf(configType: string): Option<string> {
    if configType in ["sources", "ingestion"] then Some("M1")
    else if configType in ["parsers", "parser"] then Some("M2")
    else if configType in ["schemas", "mappings", "mapping"] then Some("M3")
    else if configType in ["enrichment", "enrichment_rules"] then Some("M4")
    else if configType in ["policies", "policy", "routing"] then Some("M5")
    else None
  }

  /** What is inferred is what is expected. */
  lemma InferredAsExpected(configType: string)
    ensures OwnerOf(configType) ==
            if configType in EXPECTED_MODULES then Some(EXPECTED_MODULES[configType]) else None
  {
  }

  function ModuleOf(c: Call): string {
    if c.target != "" then c.target
    else match OwnerOf(c.ev.configType) case Some(m) => m case None => "UNKNOWN"
  }

  predicate Malicious(tenant: string) {
    || '/' in tenant || '\\' in tenant
    || exists i :: 0 <= i < |tenant| - 1 && tenant[i] == '.' && tenant[i + 1] == '.'
  }

  /** A tenant that could be taken for a path: with a slash, a backslash or two dots in a row. */
  lemma MaliciousMeans(tenant: string)
    ensures Malicious(tenant) <==>
            '/' in tenant || '\\' in tenant || exists a, b :: tenant == a + ".." + b
  {
    if i :| 0 <= i < |tenant| - 1 && tenant[i] == '.' && tenant[i + 1] == '.' {
      assert tenant == tenant[..i] + ".." + tenant[i + 2..];
    }
    forall a: string, b: string | tenant == a + ".." + b
      ensures exists i :: 0 <= i < |tenant| - 1 && tenant[i] == '.' && tenant[i + 1] == '.'
    {
      assert tenant[|a|] == '.' && tenant[|a| + 1] == '.';
    }
  }

  /** The scope whose version the stale check compares. */
  function CheckedScope(c: Call): string {
    ScopeKey(ModuleOf(c), c.ev.tenantId, c.ev.entityId)
  }

  /** The entity under which each module's adoption is written. */
  function WrittenEntity(c: Call): string {
    var m, e := ModuleOf(c), c.ev.entityId;
    if m == "M1" then Or(e, "default_sources")
    else if m == "M2" then Or(e, Or(if c.ev.payload.Some? then c.ev.payload.value.id else "", "unknown_parser"))
    else if m == "M3" then Or(e, "custom_mapping")
    else if m == "M5" then Or(e, "default")
    else e
  }

  function WrittenScope(c: Call): string {
    ScopeKey(ModuleOf(c), c.ev.tenantId, WrittenEntity(c))
  }

  /** Validation, in the order of the source: module, payload, tenant. */
  predicate Valid(c: Call) {
    && (c.ev.configType in EXPECTED_MODULES ==> EXPECTED_MODULES[c.ev.configType] == ModuleOf(c))
    && c.ev.payload.Some?
    && !Malicious(c.ev.tenantId)
  }

  predicate Stale(s: State, c: Call, t: Text) {
    var k := CheckedScope(c);
    k in s.active && !Newer(c.ev.version, s.active[k], t)
  }

  /** The state the module's apply function reports, or `None` where it raises. */
  function Outcome(c: Call): Option<ConfigState> {
    var m := ModuleOf(c);
    var adopted := if c.verified then Some(Active) else Some(Failed);
    if c.raises || m !in ["M1", "M2", "M3", "M4", "M5"] then None
    else if m == "M1" then (if !c.restart then Some(RestartRequired) else adopted)
    else if m == "M2" then (if !c.verify then Some(Materialized) else adopted)
    else if !c.reload then Some(ReloadRequired)
    else if !c.verify then Some(Materialized)
    else adopted
  }

  function StatusOf(st: ConfigState): Status {
    match st
    case Active => Applied
    case RestartRequired => NeedsRestart
    case ReloadRequired => NeedsReload
    case Materialized => OnlyMaterialized
    case Failed => Rejected
  }

  function Answer(c: Call, st: ConfigState): Ack {
    Ack(c.ev.distributionId, Or(c.ev.entityId, c.ev.distributionId), c.ev.version, ModuleOf(c), StatusOf(st), st, false)
  }

  /** `apply_configuration`, taken as one atomic step. */
  function Apply(s: State, c: Call, t: Text): (State, Ack) {
    var d := c.ev.distributionId;
    if d in s.distributions then (s, s.distributions[d].(duplicate := true))
    else if !Valid(c) || Stale(s, c, t) then (s, Answer(c, Failed))
    else
      var st := if Outcome(c).Some? then Outcome(c).value else Failed;
      var recorded := s.(distributions := s.distributions[d := Answer(c, st)]);
      (if st == Active then
         recorded.(active := s.active[WrittenScope(c) := c.ev.version],
             configs := s.configs[WrittenScope(c) := c.ev.payload.value])
       else recorded,
       Answer(c, st))
  }

  class ConfigurationSyncWorker {
    var distributions: map<string, Ack>
    var activeVersions: map<string, string>
    var activeConfigs: map<string, Payload>

    constructor ()
      ensures Abstract() == State(map[], map[], map[])
    {
      distributions, activeVersions, activeConfigs := map[], map[], map[];
    }

    function Abstract(): State
      reads this
    {
      State(distributions, activeVersions, activeConfigs)
    }

    /** The module-specific part: materialise, reload, verify, adopt. */
    method ApplyToModule(c: Call) returns (details: Option<ConfigState>)
      requires c.ev.payload.Some?
      modifies this`activeVersions, this`activeConfigs
      ensures details == Outcome(c)
      ensures details == Some(Active) ==>
                activeVersions == old(activeVersions)[WrittenScope(c) := c.ev.version] &&
                activeConfigs == old(activeConfigs)[WrittenScope(c) := c.ev.payload.value]
      ensures details != Some(Active) ==> activeVersions == old(activeVersions) && activeConfigs == old(activeConfigs)
    {
      var mod := ModuleOf(c);
      if c.raises || mod !in ["M1", "M2", "M3", "M4", "M5"] {
        return None;
      }
      if mod == "M1" && !c.restart {
        return Some(RestartRequired);
      }
      if mod in ["M3", "M4", "M5"] && !c.reload {
        return Some(ReloadRequired);
      }
      if mod != "M1" && !c.verify {
        return Some(Materialized);
      }
      if !c.verified {
        return Some(Failed);
      }
      activeVersions := activeVersions[WrittenScope(c) := c.ev.version];
      activeConfigs := activeConfigs[WrittenScope(c) := c.ev.payload.value];
      return Some(Active);
    }

    method ApplyConfiguration(c: Call, t: Text) returns (ack: Ack)
      modifies this
      ensures (Abstract(), ack) == Apply(old(Abstract()), c, t)
    {
      var d := c.ev.distributionId;
      if d in distributions {
        return distributions[d].(duplicate := true);
      }
      if !Valid(c) {
        return Answer(c, Failed);
      }
      var scope := CheckedScope(c);
      if scope in activeVersions {
        var active := ParseSemverLoop(activeVersions[scope], t);
        var incoming := ParseSemverLoop(c.ev.version, t);
        if LexLe(incoming, active) {
          return Answer(c, Failed);
        }
      }
      var details := ApplyToModule(c);
      ack := Answer(c, if details.Some? then details.value else Failed);
      distributions := distributions[d := ack];
    }
  }
}
