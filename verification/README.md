# ULPF: a verified model of the pipeline's stateful kernels

ULPF is a log pipeline of small services. This project models, in Dafny, the
parts of it that carry state or recursion and on which its promises rest, and
proves those promises for every input, every run or every schedule.

| part | modules | main results |
|---|---|---|
| Canonical JSON (M4) | `CanonicalStrings`, `CanonicalNumbers`, `CanonicalText`, `CanonicalDecoder`, `Canonicalizer`, `CanonicalIdentity`, `CanonicalLoading` | canonical text can be decoded and loaded back, so it identifies values; string literals are the shortest that can be; keys ascend strictly by UTF-16 units at every depth; key order is immaterial exactly when NFC merges no two keys with different values |
| Integrity (M4) | `Integrity`, `EnrichmentProcess` | every event `process` returns verifies; a digest accepts exactly the content it was made from, or a hash collision, and an event without one is refused; exactly when sealing raises |
| Enrichment (M4) | `EnrichmentModel`, `EnrichmentCache`, `EnrichmentCacheRuns`, `EnrichmentMerge`, `EnrichmentPlanner`, `EnrichmentEngine`, `EnrichmentServing`, `CacheTransparency`, `CacheInterleaving`, `ConfigLifecycle` | first planned writer wins; exactly when the accounting balances; independence of list order; the cache displaces the least recently used entry; cache transparency and tenant isolation over whole runs, for requests one after another and interleaved |
| Rate limiting (M1) | `TokenBucket` | the bucket level is the least slack of all windows; a request is refused only if some window would overflow |
| Outbox (M1) | `OutboxProtocol`, `IngestPipeline`, `Outbox`, `ReplayPipeline` | every vaulted payload is accounted for in any interleaving with crashes and ambiguous writes; exactly which steps orphan a payload; ingest calls and replay passes are runs of the protocol; replay drains in order in exactly ceil(n/limit) passes |
| Delivery (M5) | `Delivery`, `DeliveryOutcome`, `DeliveryEngine` | every interleaving of concurrent deliveries, of one event or many, ends each one as if it ran alone, exactly when no two share an acknowledgement record they could change |
| Routing and data lake (M5) | `Router`, `RouterOrder`, `DataLake`, `DataLakeInterleaving` | routing is order-preserving deduplication; exactly when load order is immaterial to the rules and to an event's destinations; rewrites of one event are a full window apart, and exactly when they would still be with a storage backend that suspends |
| Deduplication (integration) | `OrderedDicts`, `Idempotency`, `IdempotencyMemory` | memory plus durable table answers like one plain map, which is exactly what the acceptances of the last TTL say; early forgetting needs `capacity` other keys |
| Configuration sync (integration) | `ConfigSync`, `ConfigSyncRuns` | versions only advance; acknowledgements are truthful; exactly which calls are protected from stale versions |
| Parsers (M2) | `Grok`, `ParserRepository`, `ParserRegistry` | five substitution rounds are full expansion exactly up to height five; highest active version; rollback; tenant isolation, exactly for which callers and rollbacks |

`Results`, `Floats`, `AsciiText` and `Orders` hold the option type, float values, lower-casing and the stable
sort.

Objects that the source updates in place are classes whose methods are proved
against functions on values; the laws are lemmas about those functions and
about runs of them. Providers, connectors, clocks, the message broker, NFC,
SHA-256, float rendering, version parsing and the runtime-adoption probes are
parameters.

Where the code and its documentation differ the model follows the code, and a
lemma says so: `Canonicalizer` normalises strings (RFC 8785 does not), so two
keys can collide (`AngstromClash`); a retry's first waits may exceed the policy
when the initial backoff exceeds the maximum (`BackoffFollowsPolicy`); M1 to M3
configuration events without an entity id bypass the stale check
(`AnonymousSourcesOverwrite`); a success from a provider with a
non-finite timeout while caching is counted and recorded twice, and one whose
confidence lies outside [0, 1] is counted twice (`Accounting`,
`InfiniteTimeoutCountsTwice`, `UnrecordedCountsTwice`); a provider that returns a TIMEOUT status counts
as failed (`ReturnedTimeoutIsFailure`); an enriched event with a NaN or an
infinity makes `process` raise after its caching took effect
(`SealingRaisesExactly`); configuration rollback accepts a version that was
never active, exactly if it is a draft (`RollbackTargetExactly`); a parser
rollback by a tenant without its own copy changes the global one
(`RollbackIsolatedExactly`); the non-system caller named "global" may register
for any tenant (`IsolationExactly`); a vault write that raises after taking
effect leaves an orphan (`OrphansExactly`, `FailedWriteOrphans`).

The shipped data-lake storage never suspends, so its sends do not overlap
(`DataLake`); `DataLakeInterleaving` says what holds with a storage backend
whose awaits do suspend.

Verify with `dafny verify dfyconfig.toml`.

## Model

| member | source | states |
|---|---|---|
| `CanonicalStrings.EncodeString` | M4/app/integrity/canonicalizer.py:17-42 | the character loop yields the quoted, escaped text |
| `CanonicalStrings.ReadQuoted` | M4/app/integrity/canonicalizer.py:17-42 | an independent reader recovers every string from its escaped text, whatever follows |
| `CanonicalStrings.QuoteIsShortest` | M4/app/integrity/canonicalizer.py:17-42 | of all texts without raw control characters that read as the string, the emitted literal is the shortest, and the only one of its length |
| `CanonicalStrings.EscapedHasNoControls` | M4/app/integrity/canonicalizer.py:17-42 | no control character is emitted raw |
| `CanonicalStrings.Utf16SortKey` | M4/app/integrity/canonicalizer.py:73-87 | the loop yields the UTF-16 code units, surrogate pairs included |
| `CanonicalStrings.Utf16Injective` | M4/app/integrity/canonicalizer.py:73-87 | different scalar-value strings have different sort keys |
| `CanonicalStrings.Utf16Decodes` | M4/app/integrity/canonicalizer.py:73-87 | the sort key is the UTF-16 form: an independent decoder gives the string back |
| `CanonicalNumbers.IntRoundTrip` | M4/app/integrity/canonicalizer.py:45-48 | integers are recovered from their text |
| `CanonicalText.KeysStrictlyAscend` | M4/app/integrity/canonicalizer.py:103-113 | one object's emitted keys differ and ascend by the first difference of their UTF-16 units |
| `CanonicalText.CanonAscends` | M4/app/integrity/canonicalizer.py:90-119 | so are the keys of every object at every depth |
| `CanonicalText.SameImpliesCanon` | M4/app/integrity/canonicalizer.py:90-119 | trees equal up to object order have one canonical form |
| `CanonicalText.CanonImpliesSame` | M4/app/integrity/canonicalizer.py:90-119 | trees with one canonical form are equal up to object order |
| `CanonicalDecoder.ReadPrinted` | M4/app/integrity/canonicalizer.py:90-119 | the decoder reads back every printed tree and stops where it ends |
| `CanonicalDecoder.DecodeCanonical` | M4/app/integrity/canonicalizer.py:90-119 | decoding canonical text yields the canonical tree |
| `CanonicalDecoder.TextDecidesEquality` | M4/app/integrity/canonicalizer.py:90-119 | canonical texts are equal exactly when the trees are equal as JSON values |
| `Canonicalizer.CanonicalizeToStr` | M4/app/integrity/canonicalizer.py:90-119 | the recursive serialiser computes the canonical text, or fails where the source raises |
| `Canonicalizer.CanonicalizeList` | M4/app/integrity/canonicalizer.py:100-102 | the list branch, item by item |
| `Canonicalizer.CanonicalizeDict` | M4/app/integrity/canonicalizer.py:103-113 | sorting source keys and then building pairs is printing the sorted rendered fields |
| `Canonicalizer.SortThenRender` | M4/app/integrity/canonicalizer.py:103-113 | sorting before rendering equals rendering before sorting |
| `CanonicalIdentity.NumberText` | M4/app/integrity/canonicalizer.py:45-70 | integers and integral floats have one text exactly when they are equal integers; other numbers are compared by their rendering |
| `Canonicalizer.FloatText` | M4/app/integrity/canonicalizer.py:50-63 | a float is written as an integer exactly if it is integral with at most 21 digits, else by its rendering |
| `Canonicalizer.RaisesExactly` | M4/app/integrity/canonicalizer.py:50-119 | serialisation raises exactly when a NaN, an infinity or an unsupported object occurs at some depth |
| `CanonicalIdentity.TextIdentifiesValue` | M4/app/integrity/canonicalizer.py:90-119 | Python values have one text exactly when they are equal up to key order, NFC and number rendering |
| `CanonicalIdentity.OrderImmaterialExactly` | M4/app/integrity/canonicalizer.py:103-113 | the text ignores entry order exactly when keys that NFC merges carry one canonical value |
| `CanonicalIdentity.AngstromClash` | M4/app/integrity/canonicalizer.py:73-87 | with any NFC that folds U+212B into U+00C5, a dictionary whose text depends on entry order |
| `CanonicalLoading.TextLoadsBack` | M4/app/integrity/canonicalizer.py:90-122 | a value whose numbers are written as integers is recovered from its text by decoding and loading, up to key order and NFC |
| `Integrity.SealedVerifies` | M4/app/integrity/verifier.py:20-74 | an event sealed with its digest verifies, whatever its earlier integrity value |
| `Integrity.AcceptsExactly` | M4/app/integrity/verifier.py:46-74 | a supplied digest is accepted exactly if it is the content's own, in any letter case and between any white space |
| `Integrity.SelfVerifiesExactly` | M4/app/integrity/verifier.py:55-74 | without a supplied digest an event is accepted exactly if it records a spelling of its own digest; without a record it is refused |
| `Integrity.StripExactly` | M4/app/integrity/verifier.py:13-17 | what is hashed is every entry of the event but `integrity`, unchanged |
| `Integrity.ChangedValueCounts` | M4/app/integrity/verifier.py:46-74 | a changed value under any key but `integrity` is a changed content |
| `Integrity.ChangedKeyCounts` | M4/app/integrity/verifier.py:46-74 | so is a missing or new key, unless another has its normal form |
| `Integrity.TamperEvidence` | M4/app/integrity/verifier.py:46-74 | a digest accepts exactly equal content, or a hash collision; none under an injective hash |
| `Integrity.EditedSealDetected` | M4/app/integrity/verifier.py:46-74 | an edit that keeps the seal is accepted exactly when the content is unchanged or collides; one that drops it is refused; one with changed content is accepted only with another digest, its own |
| `EnrichmentCache.KeysAreSeparate` | M4/app/security/tenant_guard.py:27-39 | cache keys agree exactly when effective tenant, provider, namespace and lookup agree, for colon-free parts |
| `EnrichmentCache.ColonsCollide` | M4/app/security/tenant_guard.py:27-39 | with a colon in a namespace two different slots share a key |
| `EnrichmentCache.MemoryLRUCache.Get` | M4/app/cache/memory_lru.py:37-58 | lookup with expiry and reordering; keeps the cache bounded and correctly filed |
| `EnrichmentCache.MemoryLRUCache.Set` | M4/app/cache/memory_lru.py:60-90 | eviction of the least recently used entry and insertion; keeps the bound |
| `EnrichmentCache.MemoryLRUCache.Invalidate` | M4/app/cache/memory_lru.py:92-105 | removes exactly that key and keeps the order of the others |
| `EnrichmentCache.StoreKeeps` | M4/app/cache/memory_lru.py:60-90 | a store adds its entry, alters no other, and keeps size and filing |
| `EnrichmentCache.HitIsOwn` | M4/app/cache/memory_lru.py:37-58 | a hit is unexpired and was stored for the same effective tenant, provider, namespace and lookup |
| `EnrichmentCacheRuns.OrderIsRecency` | M4/app/cache/memory_lru.py:37-105 | in every run the cache lists its keys by their latest use |
| `EnrichmentCacheRuns.KeepExactly` | M4/app/cache/memory_lru.py:60-90 | a store displaces one other entry, the least recently used, exactly if its key is new and the cache is full |
| `EnrichmentCacheRuns.LookExactly` | M4/app/cache/memory_lru.py:37-58 | a lookup finds what was last stored under the key, exactly while it is held and its lifetime is not over |
| `EnrichmentCacheRuns.DisplacedNeedsOthers` | M4/app/cache/memory_lru.py:60-90 | an entry gives way only after `max_size` different other keys were used since its own last use |
| `EnrichmentMerge.MergeOutput` | M4/app/enrichment/merger.py:38-74 | the nested-dictionary merge, in any iteration order: existing fields win |
| `EnrichmentMerge.AttachProvenance` | M4/app/provenance/tracker.py:45-56 | the provenance list replaces what stood in its place |
| `EnrichmentMerge.FirstWriterWins` | M4/app/enrichment/merger.py:50-74 | after any merges a field holds the input's value, else that of the first contribution that has it |
| `EnrichmentMerge.FirstSuppliedIsFirst` | M4/app/enrichment/merger.py:69-72 | the first supplier is the one no earlier contribution precedes |
| `EnrichmentMerge.MergeKeepsRest` | M4/app/enrichment/merger.py:50-74 | everything outside the enrichment dictionary, and every namespace to which nothing was contributed, is unchanged; empty contributions change nothing |
| `EnrichmentPlanner.PlanExecution` | M4/app/enrichment/planner.py:17-57 | the planning loops compute the plan |
| `EnrichmentPlanner.PlanExactly` | M4/app/enrichment/planner.py:17-57 | a provider is planned exactly when in scope, enabled, registered, targeted if any rule is enabled, and applicable; the plan goes by configured priority (100 if none), then the provider's own, lowest number first, then id |
| `EnrichmentPlanner.TiesShareId` | M4/app/enrichment/precedence.py:7-20 | only providers with one id tie |
| `EnrichmentPlanner.PlanIgnoresOrder` | M4/app/enrichment/precedence.py:23-27 | permuting enabled providers or rules, duplicates included, does not change the plan |
| `EnrichmentProcess.Process` | M4/app/enrichment/engine.py:77-355 | the whole request: the returned event verifies against its own seal; it raises exactly at the tenant guard or where the enriched event cannot be serialised |
| `EnrichmentProcess.SealingRaisesExactly` | M4/app/enrichment/engine.py:310-312 | past the guard it raises exactly when the dumped event holds a NaN, an infinity or an unsupported object |
| `EnrichmentProcess.ReturnedVerifies` | M4/app/enrichment/engine.py:310-312 | every returned event verifies, whatever integrity value it came with |
| `EnrichmentProcess.ReturnedIsTamperEvident` | M4/app/enrichment/engine.py:310-312 | an edited copy that keeps the seal verifies exactly when its content is unchanged, or a hash collision; without a seal it is refused, and with changed content it needs another digest, its own |
| `EnrichmentEngine.Engine.Enrich` | M4/app/enrichment/engine.py:87-347 | configuration, tenant guard, plan, loop, provenance and status; the preservation check never fails |
| `EnrichmentEngine.Engine.Execute` | M4/app/enrichment/engine.py:115-302 | the provider loop keeps event, cache, lists and counters in step with the turns taken |
| `EnrichmentEngine.Engine.TakeTurn` | M4/app/enrichment/engine.py:127-302 | one provider: cache hit, or call, validation, merge and cache fill, with every error branch |
| `EnrichmentEngine.SceneExactly` | M4/app/enrichment/engine.py:87-110 | the request runs with its own tenant, the configuration it asks for if registered and else the active one, and the cache unless off or bypassed |
| `EnrichmentEngine.UncachedKeeps` | M4/app/enrichment/engine.py:132-218 | where the cache is off or bypassed the loop leaves it alone and reports no hit |
| `EnrichmentEngine.RecordsNameVersion` | M4/app/provenance/tracker.py:26-43 | every provenance record names the configuration the request ran with |
| `EnrichmentServing.SettledExactly` | M4/app/enrichment/engine.py:187-286 | only a success that claims no protected name contributes, with all its data; the status of every other outcome |
| `EnrichmentServing.LookedUpBy` | M4/app/enrichment/engine.py:53-75 | the lookup key is the first address or name the event has, in the order of the namespace |
| `EnrichmentServing.AnswerIsKept` | M4/app/enrichment/engine.py:192-218 | a usable answer is reported, and cached with its write time and the provider's timeout, cut to whole seconds, or the common lifetime |
| `EnrichmentServing.AnswerIsServedAgain` | M4/app/enrichment/engine.py:132-218 | asked for the same data next, the cache serves the answer again exactly until its lifetime is over |
| `EnrichmentEngine.Accounting` | M4/app/enrichment/engine.py:192-286 | the counters add up to the plan, and diagnostics and provenance match it one to one with equal statuses, exactly when no call succeeds with a confidence outside [0, 1], or with a non-finite timeout while caching |
| `EnrichmentEngine.Surplus` | M4/app/enrichment/engine.py:197-286 | in every run there is one diagnostic per planned provider; either such success adds one count, and the one with a non-finite timeout one record, too |
| `EnrichmentEngine.FiniteTimeoutsBalance` | M4/app/enrichment/engine.py:201-218 | confidences in [0, 1], and finite timeouts or no caching, are enough for the books to balance |
| `EnrichmentEngine.InfiniteTimeoutCountsTwice` | M4/app/enrichment/engine.py:201-286 | one such provider: two counts, two records, one FAILED diagnostic, overall PARTIAL |
| `EnrichmentEngine.UnrecordedCountsTwice` | M4/app/enrichment/engine.py:192-286 | a provider that answers with a confidence outside [0, 1]: two counts, one FAILED record and diagnostic, its data merged, overall PARTIAL, caching or not |
| `EnrichmentEngine.StatusMeaning` | M4/app/enrichment/engine.py:314-334 | all six statuses, each exactly when the diagnostics say so; SKIPPED exactly for an empty plan, TIMEOUT exactly when every planned call raised a timeout |
| `EnrichmentEngine.ReturnedTimeoutIsFailure` | M4/app/enrichment/engine.py:240-268 | when every diagnostic says TIMEOUT the run is TIMEOUT exactly if every call raised it, else FAILED |
| `EnrichmentEngine.EnrichedFields` | M4/app/enrichment/engine.py:127-308 | every field of the returned event is the input's or the first successful planned provider's; the rest of the event is unchanged |
| `EnrichmentEngine.ResultIgnoresOrder` | M4/app/enrichment/engine.py:107-355 | permuting enabled providers or rules changes nothing in the result or the cache |
| `CacheTransparency.HitStaysInTenant` | M4/app/enrichment/engine.py:132-141 | a tenant-sensitive provider's hit was stored for the same tenant |
| `CacheTransparency.RunKeepsTruth` | M4/app/enrichment/engine.py:127-228 | in every run of requests, invalidations and clears, cached data of a keyed provider is its answer |
| `CacheTransparency.CacheTransparent` | M4/app/enrichment/engine.py:127-228 | in every run, each field of a namespace served by keyed providers is as it would be without the cache |
| `CacheTransparency.CacheTransparentWhole` | M4/app/enrichment/engine.py:127-228 | if every planned provider is keyed, all extensions agree, and verdicts and status do exactly except for successes with a non-finite timeout |
| `CacheInterleaving.RunStaysInOrder` | M4/app/enrichment/engine.py:127-228 | however lookups, provider answers, cache fills and invalidations of concurrent requests interleave, each request's turns follow its plan and cached data of keyed providers is their answer |
| `CacheInterleaving.InterleavedTransparent` | M4/app/enrichment/engine.py:127-228 | however concurrent requests interleave, a finished one has in every namespace served by keyed providers what it would have alone and without a cache |
| `CacheTransparency.GeoIpIsKeyed` | M4/app/providers/geoip_provider.py:109-126 | a provider that looks up the first address, as GeoIP does, qualifies whenever it is planned |
| `ConfigLifecycle.ConfigurationManager.RegisterDraft` | M4/app/config/lifecycle.py:24-35 | registers only unseen drafts; a refused call changes nothing |
| `ConfigLifecycle.ConfigurationManager.Activate` | M4/app/config/lifecycle.py:37-63 | activation demotes the previous one; one ACTIVE configuration remains |
| `ConfigLifecycle.ConfigurationManager.Rollback` | M4/app/config/lifecycle.py:65-87 | rollback marks the current one and activates the target; one ACTIVE configuration remains |
| `ConfigLifecycle.ConfigurationManager.GetActive` | M4/app/config/lifecycle.py:89-93 | returns the only ACTIVE configuration |
| `ConfigLifecycle.LifecycleKeeps` | M4/app/config/lifecycle.py:11-93 | in every run exactly one is ACTIVE, and a configuration has left DRAFT exactly when it was active before |
| `ConfigLifecycle.StatesTell` | M4/app/config/lifecycle.py:24-87 | in every run a version is ACTIVE exactly if current, DRAFT if it never was, DEPRECATED if an activation replaced it, ROLLED_BACK if a rollback did |
| `ConfigLifecycle.CallsExactly` | M4/app/config/lifecycle.py:24-87 | exactly which registrations, activations and rollbacks are accepted, from the calls before; accepted ones make their version active, others change nothing |
| `ConfigLifecycle.ContentsFixed` | M4/app/config/lifecycle.py:24-87 | contents never change after registration |
| `ConfigLifecycle.RollbackTargetExactly` | M4/app/config/lifecycle.py:65-87 | in every run an accepted rollback's target was active before exactly when it is not a draft |
| `ConfigLifecycle.RollbackAcceptsDraft` | M4/app/config/lifecycle.py:65-87 | rollback to a version that was never active succeeds |
| `TokenBucket.TokenBucketRateLimiter.Consume` | M1/modules/m1-ingestion/app/api/rate_limiter.py:19-31 | one consume replenishes, admits or refuses |
| `TokenBucket.Run.LevelIsLeastSlack` | M1/modules/m1-ingestion/app/api/rate_limiter.py:19-31 | the level at every arrival is the minimum over windows of budget minus what was admitted |
| `TokenBucket.Run.AdmittedExactly` | M1/modules/m1-ingestion/app/api/rate_limiter.py:19-31 | a request is admitted exactly when no window would overflow |
| `TokenBucket.Run.NoWindowOverflows` | M1/modules/m1-ingestion/app/api/rate_limiter.py:12-31 | no window admits more than capacity plus what the rate earns in it |
| `TokenBucket.Run.GreedyIsMaximal` | M1/modules/m1-ingestion/app/api/rate_limiter.py:19-31 | any policy that agrees so far and respects all windows refuses what the limiter refuses |
| `TokenBucket.LimiterIsRun` | M1/modules/m1-ingestion/app/api/rate_limiter.py:12-31 | the limiter with its rate is such a run |
| `TokenBucket.RateLimitHolds` | M1/modules/m1-ingestion/app/api/rate_limiter.py:12-31 | capacity plus rate times length bounds every window of the limiter |
| `OutboxProtocol.RunKeepsInv` | M1/modules/m1-ingestion/app/transports/pipeline.py:57-107 | the accounting invariant over every run of ingest, spool, replay and crash steps |
| `OutboxProtocol.NoOrphanedEvidence` | M1/modules/m1-ingestion/app/transports/pipeline.py:57-107 | what is published or spooled was vaulted; what was vaulted is published, spooled, in flight, or recorded as lost in a crash, unspooled, or stored by a failed or interrupted write |
| `OutboxProtocol.RunKeepsFlight` | M1/modules/m1-ingestion/app/transports/pipeline.py:57-107 | in every run what is being vaulted is not vaulted yet, what is being handled is not spooled, and replays handle nothing orphaned |
| `OutboxProtocol.StepOrphans` | M1/modules/m1-ingestion/app/transports/pipeline.py:57-107 | one step orphans exactly the payload of a vault write that raises after taking effect, of a publish or spool that raises without effect and leaves no row, or those a crash cuts off; nothing is ever un-orphaned |
| `OutboxProtocol.OrphansExactly` | M1/modules/m1-ingestion/app/transports/pipeline.py:57-107 | after every run a payload is vaulted but neither published, spooled nor in flight exactly when one of the run's steps orphaned it |
| `OutboxProtocol.FailedWriteOrphans` | M1/modules/m1-ingestion/app/transports/pipeline.py:66-81 | a vault write that raises after taking effect leaves an object nobody will publish |
| `OutboxProtocol.RowsLeaveOnlyPublished` | M1/modules/m1-ingestion/app/storage/outbox.py:158-196 | a row leaves the outbox only after its publish |
| `OutboxProtocol.QuietMeansComplete` | M1/modules/m1-ingestion/app/transports/pipeline.py:57-107 | with nothing in flight and no trouble recorded, an empty outbox means everything vaulted is published |
| `IngestPipeline.Boundary.ProcessRawPayload` | M1/modules/m1-ingestion/app/transports/pipeline.py:34-120 | one call is a run of the protocol's steps; its error says what was vaulted, published, spooled or left unspooled |
| `IngestPipeline.TraceHasEffects` | M1/modules/m1-ingestion/app/transports/pipeline.py:57-107 | from every state in which the event is new the call's steps are enabled and have exactly its effects |
| `Outbox.DurableOutbox.Spool` | M1/modules/m1-ingestion/app/storage/outbox.py:62-92 | insertion that keeps ids unique |
| `Outbox.DurableOutbox.MarkPublished` | M1/modules/m1-ingestion/app/storage/outbox.py:129-132 | removes exactly that row; rows with other ids stay |
| `Outbox.DurableOutbox.RecordAttempt` | M1/modules/m1-ingestion/app/storage/outbox.py:137-147 | counts the attempt and stores the error on that row; rows with other ids are unchanged |
| `Outbox.DurableOutbox.ReplayPending` | M1/modules/m1-ingestion/app/storage/outbox.py:158-196 | publishes and removes a prefix of the pending rows up to the first publish or delete that raises, bumps that row and returns the number, with every write that raises possibly done |
| `Outbox.PendingAreOldest` | M1/modules/m1-ingestion/app/storage/outbox.py:107-124 | a pass lists rows by ascending `created_at`, and no row it leaves out is older than a listed one |
| `Outbox.PublishedCoversRemoved` | M1/modules/m1-ingestion/app/storage/outbox.py:173-196 | a pass publishes the rows it counts or one more, and removes none it did not publish |
| `Outbox.RemainingExactly` | M1/modules/m1-ingestion/app/storage/outbox.py:173-196 | after a pass the handled rows are gone, the row it stopped at has one attempt more, and every other row is as it was |
| `Outbox.RestInOrder` | M1/modules/m1-ingestion/app/storage/outbox.py:107-124 | what is left after a prefix is the rest of the created_at order |
| `Outbox.WorkingPass` | M1/modules/m1-ingestion/app/storage/outbox.py:158-196 | with working publishes and deletes a pass removes all listed rows |
| `Outbox.DrainsInOrder` | M1/modules/m1-ingestion/app/storage/outbox.py:158-196 | n rows are gone after k passes exactly when k is at least ceil(n/limit); rows are published by ascending `created_at` across passes |
| `ReplayPipeline.PassIsRun` | M1/modules/m1-ingestion/app/storage/outbox.py:158-196 | a replay pass is an enabled run of the protocol's replay steps, which leads to exactly what it published and left in the table |
| `Delivery.KeyInjective` | M5/app/delivery/ack.py:32-33 | one event's ack keys differ for differently named connectors |
| `Delivery.KeysAreSeparate` | M5/app/delivery/ack.py:32-33 | for event ids without a colon, keys agree exactly when event and destination do |
| `Delivery.Interleaving` | M5/app/delivery/retry.py:125-136 | after any schedule of deliveries that share no record they could change, of one event or many, a delivery's view equals that of running alone for as many steps |
| `Delivery.OneEventHasDistinctKeys` | M5/app/delivery/ack.py:32-33 | one event's deliveries to distinctly named connectors have distinct records |
| `Delivery.UndisturbedExactly` | M5/app/delivery/ack.py:32-71 | for every max_retries, every schedule leaves every delivery as if alone exactly when no two share a record, except, when no sends are allowed, one that is already promoted; with max_retries at least one exactly when all records are distinct |
| `Delivery.KeysCollide` | M5/app/delivery/ack.py:32-33 | different events to different destinations can share a record |
| `DeliveryOutcome.ConclusionMeaning` | M5/app/delivery/retry.py:59-123 | success exactly if an allowed send is delivered after transient failures only; then acknowledged and no letter, else promoted and one letter with the unchanged event, the failure that decided and the number of sends; bounded sends; the waits |
| `DeliveryOutcome.RecordAlwaysTells` | M5/app/delivery/ack.py:35-71 | at every point of a delivery its record tells what it waits for: status, attempts made and last error |
| `DeliveryOutcome.ConcludesInTime` | M5/app/delivery/retry.py:35-123 | alone, a delivery reaches that outcome within twice max_retries plus one steps |
| `DeliveryOutcome.EveryScheduleConcludes` | M5/app/delivery/retry.py:125-136 | in every such interleaving a finished delivery, and every one resumed often enough, has that outcome |
| `DeliveryOutcome.ResultsIndependentOfSchedule` | M5/app/delivery/retry.py:125-136 | the result map is the same for all complete schedules |
| `DeliveryOutcome.BackoffClosedForm` | M5/app/delivery/retry.py:110-112 | the k-th wait is min(initial * 2^(k-1), max) when the initial one is at most max |
| `DeliveryOutcome.BackoffFollowsPolicy` | integration/adapters/retry_policy.py:38-43 | the waits follow `calculate_delay` exactly when the initial backoff is at most the maximum |
| `DeliveryEngine.AckTracker.RecordAttempt` | M5/app/delivery/ack.py:35-46 | creates or counts the record; other records unchanged |
| `DeliveryEngine.AckTracker.RecordAck` | M5/app/delivery/ack.py:48-58 | marks an existing record acknowledged |
| `DeliveryEngine.AckTracker.RecordFailure` | M5/app/delivery/ack.py:60-71 | marks an existing record failed or promoted, with the error |
| `DeliveryEngine.DeadLetterQueue.Push` | M5/app/delivery/dlq.py:39-70 | appends one letter with the event unchanged |
| `DeliveryEngine.RetryEngine.DeliverToConnector` | M5/app/delivery/retry.py:35-123 | the attempt loop ends in the closed-form outcome: result, record, letters and waits |
| `OrderedDicts.ColonSplit` | integration/adapters/idempotency.py:57-58 | colon-joining is unambiguous when the left part has none |
| `Idempotency.KeysAreSeparate` | integration/adapters/idempotency.py:57-58 | keys agree exactly when tenant and event do, for colon-free tenants |
| `Idempotency.IdempotencyTracker.CheckAndSet` | integration/adapters/idempotency.py:60-140 | the two-level check with expiry, eviction and store failures |
| `Idempotency.IdempotencyTracker.GetCachedResult` | integration/adapters/idempotency.py:142-170 | memory first, then the table unless reading it raises, live entries only |
| `Idempotency.IdempotencyTracker.Clear` | integration/adapters/idempotency.py:172-184 | empties both levels; a raising delete leaves the table |
| `Idempotency.CheckedExactly` | integration/adapters/idempotency.py:60-140 | whatever raises, a key is new exactly if neither memory nor a readable table holds it alive, and where it is held then |
| `Idempotency.CheckedRefines` | integration/adapters/idempotency.py:60-140 | one durable call answers and updates like a plain map |
| `Idempotency.TrackerIsPlainMap` | integration/adapters/idempotency.py:60-170 | in every run with restarts and clears, every answer is the plain map's |
| `Idempotency.AcceptancesAreSpaced` | integration/adapters/idempotency.py:60-140 | two acceptances of one key are at least the TTL apart |
| `Idempotency.AnswersExactly` | integration/adapters/idempotency.py:60-170 | in every run a check is refused exactly if the key's latest acceptance is less than the TTL ago, and a fetch returns exactly that acceptance's result |
| `IdempotencyMemory.SizeStaysBounded` | integration/adapters/idempotency.py:112-119 | memory-only size never exceeds capacity |
| `IdempotencyMemory.RefusedIsRecent` | integration/adapters/idempotency.py:60-170 | without a table, too, only a key accepted less than the TTL ago is refused or has a result |
| `IdempotencyMemory.EarlyForgettingNeedsCapacityKeys` | integration/adapters/idempotency.py:60-140 | a live key is taken for new only after at least `capacity` distinct other keys were checked |
| `ConfigSync.ParseSemverLoop` | integration/config_sync/config_worker.py:59-70 | the loop yields the version tuple |
| `ConfigSync.ParsesWritten` | integration/config_sync/config_worker.py:59-70 | a version as written parses to its first three dotted parts, as numbers or 0, whatever white space, letters `v` and suffix are around them |
| `ConfigSync.NewerExactly` | integration/config_sync/config_worker.py:59-70 | versions compare by the first part, then the second, then the third |
| `ConfigSync.NewerIsStrictOrder` | integration/config_sync/config_worker.py:59-70 | version comparison is irreflexive and transitive |
| `ConfigSync.InferredAsExpected` | integration/config_sync/config_worker.py:666-697 | the module inferred from a configuration type is the one the type is expected at |
| `ConfigSync.MaliciousMeans` | integration/config_sync/config_worker.py:729-744 | a tenant is refused exactly if it contains a slash, a backslash or two dots in a row |
| `ConfigSync.ConfigurationSyncWorker.ApplyToModule` | integration/config_sync/config_worker.py:122-171 | a module's state update, made only when its runtime adopted the version |
| `ConfigSync.ConfigurationSyncWorker.ApplyConfiguration` | integration/config_sync/config_worker.py:636-847 | duplicates, validation, stale check, dispatch and acknowledgement |
| `ConfigSyncRuns.ScopesAgreeExactly` | integration/config_sync/config_worker.py:100-101 | which calls are checked against the scope they write |
| `ConfigSyncRuns.AnonymousScopes` | integration/config_sync/config_worker.py:122-634 | under which entity each module writes when none is named |
| `ConfigSyncRuns.ScopesAreSeparate` | integration/config_sync/config_worker.py:100-101 | different modules, tenants or entities have different scopes |
| `ConfigSyncRuns.AcknowledgedExactly` | integration/config_sync/config_worker.py:660-847 | a new distribution is acknowledged APPLIED exactly if it is admitted, its module is asked and the adoption is verified; each pending status exactly if the module still has to act; else it is rejected |
| `ConfigSyncRuns.StaleRejectedExactly` | integration/config_sync/config_worker.py:745-763 | stale versions are refused in every state exactly when checked and written scope agree |
| `ConfigSyncRuns.AnonymousSourcesOverwrite` | integration/config_sync/config_worker.py:122-171 | without an entity id any later version replaces the active one |
| `ConfigSyncRuns.StepFrame` | integration/config_sync/config_worker.py:636-847 | any call sets the scope it writes exactly if it is newly applied, and no other |
| `ConfigSyncRuns.StepRecords` | integration/config_sync/config_worker.py:660-664 | any call leaves recorded distributions as they are, and a repeated one does nothing |
| `ConfigSyncRuns.StepKeeps` | integration/config_sync/config_worker.py:636-847 | a call with one scope moves it only forward, and APPLIED means exactly that it made its version active |
| `ConfigSyncRuns.ActiveIsLatestApplied` | integration/config_sync/config_worker.py:798-831 | in every run the active version is that of the scope's latest APPLIED acknowledgement |
| `ConfigSyncRuns.VersionsOnlyAdvance` | integration/config_sync/config_worker.py:745-847 | between any two points of a run a scope's version is unchanged or strictly newer, if the calls that write it are checked against it |
| `ConfigSyncRuns.DistributionsAreFinal` | integration/config_sync/config_worker.py:660-664 | a recorded distribution is never overwritten |
| `ConfigSyncRuns.AppliedOnce` | integration/config_sync/config_worker.py:660-664 | no distribution is applied twice |
| `Router.SmartRouter.SetRules` | M5/app/router/router.py:21-25 | rules are a permutation of those loaded, by descending priority, then id, ties in load order |
| `Router.SmartRouter.Route` | M5/app/router/router.py:46-87 | the nested loops compute destinations and matched rules |
| `Router.RouteExactly` | M5/app/router/router.py:46-87 | exactly the destinations of enabled, aligned, matching rules, once each, in order of first occurrence along the sorted rules |
| `Router.Conjunctions` | M5/app/router/evaluator.py:135-147 | lists and `all` are conjunctions |
| `Router.Disjunctions` | M5/app/router/evaluator.py:150-152 | `any` is a disjunction |
| `Router.Nodes` | M5/app/router/evaluator.py:145-164 | a node uses only the first of `all`, `any` and its field test that it has |
| `Router.LoadOrderImmaterial` | M5/app/router/router.py:21-25 | load order does not matter when equal (priority, id) means equal rules |
| `Router.LoadOrderExactly` | M5/app/router/router.py:21-25 | load order is immaterial to the sorted rules exactly when no two different rules share priority and id |
| `Router.TiesShowLoadOrder` | M5/app/router/router.py:21-87 | two matching rules of one key with different first destinations make it show in the destinations |
| `RouterOrder.DestinationsExactly` | M5/app/router/router.py:21-87 | load order is immaterial to an event's destinations exactly when, of any two matching rules of one priority and id, one adds a prefix of what the other adds to the destinations before them |
| `Router.AddingKeeps` | M5/app/router/router.py:46-87 | adding a rule anywhere removes no destination |
| `Router.LastRuleAppends` | M5/app/router/router.py:46-87 | a rule that sorts last only appends destinations |
| `DataLake.DataLakeWriter.Send` | M5/app/datalake/writer.py:42-74 | skips known events, writes others, and keeps set and list equal, distinct and bounded |
| `DataLake.WindowIsLatest` | M5/app/datalake/writer.py:42-74 | in every run of sends the window is the latest writes, all different, and set and list agree |
| `DataLake.WritesExactly` | M5/app/datalake/writer.py:42-74 | a call writes its event exactly if the connector is healthy, nothing raises and the event is not among the last writes of a window |
| `DataLake.RewritesAreFarApart` | M5/app/datalake/writer.py:42-74 | in every run of sends a full window of distinct other events was written between two writes of one event |
| `DataLake.TidyExactly` | M5/app/datalake/writer.py:67-73 | a write keeps set and list consistent exactly when the event is not still in the list |
| `DataLakeInterleaving.RunKeepsInv` | M5/app/datalake/writer.py:42-74 | with a storage backend that suspends, but no overlap per event, the window is the latest writes |
| `DataLakeInterleaving.SpacedExactly` | M5/app/datalake/writer.py:55-73 | under any interleaving, the last window of writes never repeats an event exactly when no send finishes with its event already in the window |
| `DataLakeInterleaving.BreachNeedsOverlap` | M5/app/datalake/writer.py:55-73 | the first such send overlapped another send of the same event that finished while it was in flight |
| `DataLakeInterleaving.NoOverlapIsClean` | M5/app/datalake/writer.py:55-73 | without overlap per event there is none |
| `DataLakeInterleaving.InterleavedRewritesAreFarApart` | M5/app/datalake/writer.py:55-73 | interleaved rewrites are a full window of distinct other events apart, if no send finished so |
| `DataLakeInterleaving.OverlapWritesTwice` | M5/app/datalake/writer.py:55-73 | with such a backend two overlapping sends of one event both write it |
| `Grok.GrokToRegex` | M2/abcd-main/app/engine/grok.py:38-64 | the bounded loop with early exit equals five rounds |
| `Grok.TokensOfRound` | M2/abcd-main/app/engine/grok.py:45-64 | textual substitution unfolds references: none appears or vanishes at a seam |
| `Grok.Classes` | M2/abcd-main/app/engine/grok.py:59 | the characters of names and of fields in a reference |
| `Grok.ReferenceBecomesGroup` | M2/abcd-main/app/engine/grok.py:45-59 | a reference becomes a group of its field's name around its definition, or a plain group |
| `Grok.FiveRoundsExactly` | M2/abcd-main/app/engine/grok.py:38-64 | no reference is left exactly when nesting is at most five, and the result is then the full recursive expansion |
| `ParserRepository.Repository.Save` | M2/abcd-main/app/registry/repository.py:83-89 | files a definition under its tenant, id and version, and keeps everything so filed |
| `ParserRepository.SavedExactly` | M2/abcd-main/app/registry/repository.py:83-89 | saving stores the definition under its tenant, id and version and alters nothing stored elsewhere |
| `ParserRepository.Repository.GetHighestActiveVersion` | M2/abcd-main/app/registry/repository.py:118-130 | the search along the sorted versions |
| `ParserRepository.HighestActiveExactly` | M2/abcd-main/app/registry/repository.py:118-130 | the result is the greatest ACTIVE version, or the greatest of all if none is ACTIVE, by parsed version if all parse and else as strings |
| `ParserRepository.VersionsDescend` | M2/abcd-main/app/registry/repository.py:195-212 | versions are listed once each, from the latest to the earliest |
| `ParserRepository.Repository.GetParser` | M2/abcd-main/app/registry/repository.py:91-116 | own partition first, then the global one |
| `ParserRepository.Repository.ListForTenant` | M2/abcd-main/app/registry/repository.py:132-165 | the two listing loops and the priority sort |
| `ParserRepository.ListExactly` | M2/abcd-main/app/registry/repository.py:132-165 | exactly the tenant's ACTIVE answers and the global ones it does not overlay, by priority |
| `ParserRepository.ReadsSeeOwnView` | M2/abcd-main/app/registry/repository.py:91-212 | no read of a tenant depends on any third partition |
| `ParserRegistry.RegistryService.RegisterParser` | M2/abcd-main/app/registry/service.py:28-56 | refuses foreign and global definitions of tenant callers, else saves as ACTIVE |
| `ParserRegistry.RegistersExactly` | M2/abcd-main/app/registry/service.py:28-56 | a valid definition is stored, as ACTIVE, exactly for its own tenant, the system or the caller "global" |
| `ParserRegistry.IsolationExactly` | M2/abcd-main/app/registry/service.py:35-45 | registration never changes another tenant's view exactly for callers that are neither system nor "global" |
| `ParserRegistry.RegistrationKeepsOthers` | M2/abcd-main/app/registry/service.py:28-56 | such a registration leaves every get, list and find result of other tenants unchanged |
| `ParserRegistry.FoundIsOwnOrGlobal` | M2/abcd-main/app/registry/service.py:113-218 | what is found is a built-in, or an ACTIVE parser of the tenant or the baseline |
| `ParserRegistry.OwnParserWins` | M2/abcd-main/app/registry/service.py:130-154 | a fitting tenant parser wins, lowest priority number first |
| `ParserRegistry.BaselineWins` | M2/abcd-main/app/registry/service.py:156-176 | without a fitting own parser, a fitting baseline parser of the known vendor wins, lowest priority number first |
| `ParserRegistry.GenericWins` | M2/abcd-main/app/registry/service.py:178-194 | without either, a fitting generic parser the tenant sees wins, lowest priority number first |
| `ParserRegistry.BuiltInsComeLast` | M2/abcd-main/app/registry/service.py:196-218 | without any of them, the first fitting built-in is found, or none |
| `ParserRegistry.FoundSuits` | M2/abcd-main/app/registry/service.py:130-194 | a registered parser that is found can parse the payload and has the classified vendor, product and format; only generic parsers and the tenant's own have more latitude |
| `ParserRegistry.OwnMatchIsFound` | M2/abcd-main/app/registry/service.py:130-154 | an own parser that matches vendor, product and format and can parse is not passed over |
| `ParserRegistry.SharedMatchIsFound` | M2/abcd-main/app/registry/service.py:156-194 | nor is a matching baseline parser if no own one fits, or a generic one if no baseline one does either |
| `ParserRegistry.RegistryService.RollbackParser` | M2/abcd-main/app/registry/service.py:78-99 | restates every version of the resolved parser; the returned one is what `get` returns |
| `ParserRegistry.RollsBackExactly` | M2/abcd-main/app/registry/service.py:78-99 | a rollback is accepted exactly if the target is a stored version of the parser the tenant sees |
| `ParserRegistry.RollbackExactly` | M2/abcd-main/app/registry/service.py:78-99 | afterwards the target is the only ACTIVE version and unversioned `get` returns it |
| `ParserRegistry.RollbackFrame` | M2/abcd-main/app/registry/service.py:78-99 | nothing but the resolved parser's versions changes |
| `ParserRegistry.RollbackIsolatedExactly` | M2/abcd-main/app/registry/service.py:78-99 | another tenant's view is unchanged exactly when the tenant rolls back its own copy or there was nothing to change |
| `ParserRegistry.FallbackRollbackReachesOthers` | M2/abcd-main/app/registry/service.py:78-99 | what a tenant that falls back reads of every version afterwards, and exactly when that is what it read before |

## Left out

- Routes, authentication, HTTP, Kafka, MinIO and SQL clients, health, metrics, logging, frontends and M6: input and output without state laws.
- Float rendering with sixteen digits, NFC and SHA-256 are parameters; float text is not claimed to conform to RFC 8785, and values are compared up to number rendering.
- Non-string dictionary keys, objects serialised through `model_dump` or `vars`, and which exception a failed serialisation raises.
- CanonicalIdentity.NumberText: outside the integers two numbers count as equal exactly when their renderings are, because rendering is a parameter.
- CanonicalLoading.TextLoadsBack: numbers written with sixteen digits are not read back, for the same reason.
- Canonicalizer.RaisesExactly: strings and keys hold Unicode scalar values and integers have at most 4300 digits; a lone surrogate would make the source raise when the text is encoded as UTF-8 (M4/app/integrity/canonicalizer.py:122), and a longer integer when it is printed (line 48).
- EnrichmentProcess.SealingRaisesExactly: the same two inputs make sealing raise in the source.
- Integrity.TamperEvidence: supplied digests are ASCII; a non-ASCII one makes the source's comparison raise.
- EnrichmentEngine.Engine.Enrich: recorded confidences, source references, durations, timestamps and error texts of diagnostics and provenance are not modelled, beyond whether a confidence can be recorded; other fields of a provider's output hold values of their declared types; input validation of the schema version and timestamp happens before; `can_enrich` does not raise.
- EnrichmentProcess.Process: the JSON-mode dump of an event is a parameter; hash values are hexadecimal.
- Rule conditions and `can_enrich` are oracles, as are the field comparisons of the router's leaf conditions.
- CacheInterleaving.InterleavedTransparent: a cache operation is one atomic step, as under the cache's lock, and clocks and providers are functions of the request, so that running alone is defined.
- Cache transparency for the asset and threat-intelligence providers, which consult more values than the cache key names.
- Delivery.Interleaving: the event id is given; metrics, timestamps, the text in front of an exhausted delivery's last error and a failing dead-letter file write are not modelled.
- Idempotency.TrackerIsPlainMap: assumes a durable store that does not raise; `CheckAndSet` itself models the raising accesses.
- A capacity bound for the tracker in durable mode, which the code does not keep.
- ConfigSync.ConfigurationSyncWorker.ApplyConfiguration: one call is atomic, its module and type names arrive upper- and lower-cased, and file writes and runtime probes are flags.
- DataLake.DataLakeWriter.Send: partition names, the written objects and the catalog's rows; a send whose write or commit raises counts as not written.
- Sharing of one definition object between the registry and its callers, `enable_parser` and `disable_parser`, and loading definitions from files.
- Regular-expression matching of expanded Grok patterns, key-value, CEF and LEEF extraction, vendor signatures.
