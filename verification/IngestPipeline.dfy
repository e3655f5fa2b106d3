/**
 One ingest call (M1/modules/m1-ingestion/app/transports/pipeline.py) with its
 ordered effects on vault, broker and outbox, as an undisturbed run of the
 dual-write protocol.
 */
module IngestPipeline {
  import opened OutboxProtocol

  /** Which writes raise, and whether each took effect all the same. */
  datatype Faults = Faults(
    vaultFails: bool, stored: bool, publishFails: bool, delivered: bool, spoolFails: bool, spooled: bool)

  datatype Outcome = Accepted | MinIOWriteError | KafkaPublishError

  /** The protocol steps the call takes. */
  function Trace(id: Id, hasOutbox: bool, f: Faults): seq<Step> {
    if f.vaultFails then [Begin(id), VaultFails(id, f.stored)]
    else if !f.publishFails then [Begin(id), VaultOk(id), PublishOk(id)]
    else if !hasOutbox then [Begin(id), VaultOk(id), PublishFails(id, f.delivered, false)]
    else [Begin(id), VaultOk(id), PublishFails(id, f.delivered, true),
          if f.spoolFails then SpoolFails(id, f.spooled) else SpoolOk(id)]
  }

  /** What the whole call does to the system. */
  function Effects(s: System, id: Id, hasOutbox: bool, f: Faults): System {
    if f.vaultFails then
      var s' := s.(started := s.started + {id});
      if f.stored then s'.(vault := s.vault + {id}, unconfirmed := s.unconfirmed + {id}) else s'
    else
      var failed := f.publishFails && !(hasOutbox && !f.spoolFails);
      s.(started := s.started + {id}, vault := s.vault + {id},
         published := if !f.publishFails || f.delivered then s.published + {id} else s.published,
         outbox := if f.publishFails && hasOutbox && (!f.spoolFails || f.spooled) then s.outbox + {id} else s.outbox,
         unspooled := if failed then s.unspooled + {id} else s.unspooled)
  }

  lemma TwoSteps(s: System, a: Step, b: Step)
    requires Enabled(s, a) && Enabled(Next(s, a), b)
    ensures Leads(s, [a, b], Next(Next(s, a), b))
  {
    assert [a, b][1..] == [b] && [b][1..] == [];
    assert Leads(Next(s, a), [b], Next(Next(s, a), b));
  }

  lemma ThreeSteps(s: System, a: Step, b: Step, c: Step)
    requires Enabled(s, a) && Enabled(Next(s, a), b) && Enabled(Next(Next(s, a), b), c)
    ensures Leads(s, [a, b, c], Next(Next(Next(s, a), b), c))
  {
    TwoSteps(Next(s, a), b, c);
    assert [a, b, c][1..] == [b, c];
  }

  lemma FourSteps(s: System, a: Step, b: Step, c: Step, d: Step)
    requires Enabled(s, a) && Enabled(Next(s, a), b) && Enabled(Next(Next(s, a), b), c)
    requires Enabled(Next(Next(Next(s, a), b), c), d)
    ensures Leads(s, [a, b, c, d], Next(Next(Next(Next(s, a), b), c), d))
  {
    ThreeSteps(Next(s, a), b, c, d);
    assert [a, b, c, d][1..] == [b, c, d];
  }

  lemma SpoolingHasEffects(s: System, id: Id, f: Faults)
    requires id !in s.started && id !in s.inFlight && !f.vaultFails && f.publishFails
    ensures Leads(s, Trace(id, true, f), Effects(s, id, true, f))
  {
    var last := if f.spoolFails then SpoolFails(id, f.spooled) else SpoolOk(id);
    FourSteps(s, Begin(id), VaultOk(id), PublishFails(id, f.delivered, true), last);
    var s3 := Next(Next(Next(s, Begin(id)), VaultOk(id)), PublishFails(id, f.delivered, true));
    assert Next(s3, last).inFlight == s.inFlight;
    assert Next(s3, last) == Effects(s, id, true, f);
  }

  /** From any state in which the event is new, the trace is enabled and has exactly these effects. */
  lemma TraceHasEffects(s: System, id: Id, hasOutbox: bool, f: Faults)
    requires id !in s.started && id !in s.inFlight
    ensures Leads(s, Trace(id, hasOutbox, f), Effects(s, id, hasOutbox, f))
  {
    if f.vaultFails {
      TwoSteps(s, Begin(id), VaultFails(id, f.stored));
      assert s.inFlight[id := Vaulting] - {id} == s.inFlight;
    } else if !f.publishFails || !hasOutbox {
      var last := if f.publishFails then PublishFails(id, f.delivered, false) else PublishOk(id);
      ThreeSteps(s, Begin(id), VaultOk(id), last);
      assert s.inFlight[id := Vaulting][id := Publishing] - {id} == s.inFlight;
    } else {
      SpoolingHasEffects(s, id, f);
    }
  }

  class Boundary {
    var vault: set<Id>
    var published: set<Id>
    var outbox: set<Id>
    var unconfirmed: set<Id>
    var unspooled: set<Id>

    ghost function View(started: set<Id>): System
      reads this
    {
      System(started, vault, published, outbox, map[], map[], unconfirmed, {}, unspooled)
    }

    constructor ()
      ensures View({}) == EMPTY
    {
      vault, published, outbox, unconfirmed, unspooled := {}, {}, {}, {}, {};
    }

    /** An undisturbed call is a run of the protocol; no vaulted payload is left unaccounted for. */
    method ProcessRawPayload(id: Id, hasOutbox: bool, f: Faults, ghost started: set<Id>) returns (r: Outcome)
      requires id !in started
      modifies this
      ensures Leads(old(View(started)), Trace(id, hasOutbox, f), View(started + {id}))
      ensures r == if f.vaultFails then MinIOWriteError else if f.publishFails then KafkaPublishError else Accepted
      ensures r == MinIOWriteError ==>
                published == old(published) && outbox == old(outbox) && unspooled == old(unspooled)
      ensures r == MinIOWriteError ==> vault - old(vault) <= unconfirmed
      ensures r == Accepted ==> id in vault && id in published && outbox == old(outbox)
      ensures r == KafkaPublishError ==> id in vault && (id in outbox || id in unspooled)
    {
      TraceHasEffects(View(started), id, hasOutbox, f);
      if f.vaultFails {
        if f.stored {
          vault, unconfirmed := vault + {id}, unconfirmed + {id};
        }
        return MinIOWriteError;
      }
      vault := vault + {id};
      if !f.publishFails {
        published := published + {id};
        return Accepted;
      }
      if f.delivered {
        published := published + {id};
      }
      if hasOutbox && (!f.spoolFails || f.spooled) {
        outbox := outbox + {id};
      }
      if !hasOutbox || f.spoolFails {
        unspooled := unspooled + {id};
      }
      return KafkaPublishError;
    }
  }
}
