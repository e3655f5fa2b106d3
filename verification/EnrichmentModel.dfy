/** The entities of the enrichment service (M4): events, providers, configurations. */
module EnrichmentModel {
  import opened Results
  import opened Floats

  /** A value in `extensions`: a dictionary or anything else. */
  datatype Data = Leaf(text: string) | Dict(fields: map<string, Data>)

  type Fields = map<string, Data>

  /** The part of an event that enrichment reads and must not change; `rest` stands for the other fields. */
  datatype Core = Core(
    id: string, timestamp: string, rawEventId: string, tenantId: string,
    sourceIp: Option<string>, destinationIp: Option<string>, destinationDomain: Option<string>,
    hostname: Option<string>, hostName: Option<string>, rest: Fields)

  datatype Event = Event(core: Core, extensions: Fields)

  datatype Provider = Provider(id: string, version: string, namespace: string, priority: int, tenantSensitive: bool)

  datatype Status = SUCCESS | PARTIAL | FAILED | SKIPPED | TIMEOUT | NOT_FOUND

  datatype Output = Output(status: Status, data: Fields, confidence: Float)

  /** A provenance record takes only confidences from 0 to 1; others make its construction raise. */
  predicate Recordable(confidence: Float) {
    confidence.Finite? && 0.0 <= confidence.value <= 1.0
  }

  /** How a call of `enrich` ends. */
  datatype Call = Returned(output: Output) | RaisedTimeout | RaisedOther

  datatype Rule = Rule(enabled: bool, tenantScope: seq<string>, conditions: seq<string>, providers: seq<string>)

  datatype Config = Config(
    version: string, tenantScopes: seq<string>, enabledProviders: seq<string>, rules: seq<Rule>,
    priorities: map<string, int>, timeouts: map<string, Float>, cacheEnabled: bool, cacheTtl: int)

  /** `a or b` on an optional string: absent and empty are both falsy. */
  function Or(a: Option<string>, b: string): string {
    if a.Some? && a.value != "" then a.value else b
  }

  function LookupKey(c: Core, p: Provider): string {
    if p.namespace == "asset" then Or(c.sourceIp, Or(c.hostname, Or(c.hostName, "unknown")))
    else if p.namespace == "geo" then Or(c.sourceIp, Or(c.destinationIp, "unknown"))
    else if p.namespace == "threat_intel" then Or(c.destinationDomain, Or(c.destinationIp, Or(c.sourceIp, "unknown")))
    else Or(c.sourceIp, c.id)
  }

  // ---- tenant identifiers ----

  predicate TenantChar(c: char) {
    'a' <= c <= 'z' || 'A' <= c <= 'Z' || '0' <= c <= '9' || c == '_' || c == '-' || c == '.'
  }

  /** The pattern every tenant context is validated against. */
  predicate ValidTenant(s: string) {
    1 <= |s| <= 128 && forall i :: 0 <= i < |s| ==> TenantChar(s[i])
  }

  type TenantId = s: string | ValidTenant(s) witness "default"

  /** A registry maps each id to a provider carrying that id. */
  type Registry = map<string, Provider>

  ghost predicate ValidRegistry(r: Registry) {
    forall id :: id in r ==> r[id].id == id
  }
}
