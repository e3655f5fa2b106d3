/**
 A whole enrichment request (`process` in M4/app/enrichment/engine.py): the
 enriched event is sealed with the digest of its own content.
 */
module EnrichmentProcess {
  import opened Results
  import opened EnrichmentModel
  import opened EnrichmentPlanner
  import opened EnrichmentEngine
  import opened Canonicalizer
  import opened CanonicalIdentity
  import Integrity

  /**
   What sealing takes from the runtime: the hash, the JSON-mode dump of an
   event (with the `integrity` value it came with) and the time.
   */
  datatype Sealer = Sealer(crypto: Integrity.Crypto, dump: EnrichmentModel.Event -> seq<Entry>, now: string)

  /** The metadata `calculate_integrity` returns. */
  function Metadata(digest: string, now: string): (meta: seq<Entry>)
    ensures Integrity.Lookup(meta, "digest") == Some(VStr(digest))
  {
    [Entry("algorithm", VStr("sha256")), Entry("digest", VStr(digest)), Entry("canonicalization", VStr("rfc8785")),
     Entry("generated_at", VStr(now)), Entry("phase", VStr("enriched"))]
  }

  /** The result with the returned event as the dictionary a verifier reads. */
  datatype Result = Result(outcome: Outcome, integrity: seq<Entry>, sealed: seq<Entry>)

  /** `None` where canonical serialisation raises. */
  function Sealed(out: Outcome, s: Sealer): Option<Result> {
    var es := s.dump(out.event);
    var digest :- Integrity.Digest(es, s.crypto);
    var meta := Metadata(digest, s.now);
    Some(Result(out, meta, Integrity.Seal(es, meta)))
  }

  /** What is returned verifies against its own record, whatever integrity value the event came with. */
  lemma ReturnedVerifies(out: Outcome, s: Sealer)
    requires Integrity.SaneCrypto(s.crypto) && Sealed(out, s).Some?
    ensures Integrity.Verify(Sealed(out, s).value.sealed, None, s.crypto) == Some(true)
  {
    var es := s.dump(out.event);
    var digest := Integrity.Digest(es, s.crypto).value;
    Integrity.SealedVerifies(es, Metadata(digest, s.now), s.crypto);
  }

  /**
   An edited copy of a returned event that keeps its seal verifies exactly when its
   content is unchanged, or collides with it under the hash; without a seal it is
   refused, and with changed content it takes another digest, its own.
   */
  lemma ReturnedIsTamperEvident(out: Outcome, s: Sealer, edited: seq<Entry>)
    requires Integrity.SaneCrypto(s.crypto) && Sealed(out, s).Some? && Integrity.Digest(edited, s.crypto).Some?
    requires DistinctNfc(VDict(Integrity.StripIntegrity(s.dump(out.event))), s.crypto.rt)
    requires DistinctNfc(VDict(Integrity.StripIntegrity(edited)), s.crypto.rt)
    ensures Integrity.Lookup(edited, "integrity") == Some(VDict(Sealed(out, s).value.integrity)) ==>
              Integrity.Verify(edited, None, s.crypto) ==
              Some(Integrity.Unaltered(edited, s.dump(out.event), s.crypto))
    ensures !Integrity.Recorded(edited) ==> Integrity.Verify(edited, None, s.crypto) == Some(false)
    ensures Integrity.Verify(edited, None, s.crypto) == Some(true)
            && !Integrity.Unaltered(edited, s.dump(out.event), s.crypto) ==>
              Integrity.Resealed(edited, s.dump(out.event), s.crypto)
  {
    Integrity.EditedSealDetected(s.dump(out.event), Sealed(out, s).value.integrity, edited, s.crypto);
  }

  /**
   The whole request. It raises exactly where the tenant guard does, or where the
   enriched event cannot be serialised, with the cache already filled.
   */
  method Process(e: Engine, r: Request, o: Oracles, w: World, s: Sealer) returns (result: Option<Result>)
    requires e.manager.Valid() && e.Ready() && Integrity.SaneCrypto(s.crypto)
    modifies e.cache
    ensures e.manager.Valid() && e.Ready()
    ensures TenantOf(r).None? ==> result.None? && e.Contents() == old(e.Contents())
    ensures TenantOf(r).Some? ==>
      var end := e.End(r, o, w, old(e.Start(r.event.extensions)));
      result == Sealed(OutcomeOf(end, e.SceneFor(r, w)), s) && e.Contents() == end.cache
    ensures result.Some? ==> Integrity.Verify(result.value.sealed, None, s.crypto) == Some(true)
  {
    var out := e.Enrich(r, o, w);
    if out.None? {
      return None;
    }
    result := Sealed(out.value, s);
    if result.Some? {
      ReturnedVerifies(out.value, s);
    }
  }

  /**
   Past the tenant guard, `process` raises exactly when the dumped event holds a
   NaN, an infinity or an unsupported object.
   */
  lemma SealingRaisesExactly(out: Outcome, s: Sealer)
    ensures Sealed(out, s).None? <==> Unserialisable(VDict(Integrity.StripIntegrity(s.dump(out.event))))
  {
    RaisesExactly(VDict(Integrity.StripIntegrity(s.dump(out.event))), s.crypto.rt);
  }
}
