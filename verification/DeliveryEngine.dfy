/**
 The delivery engine as the source writes it: mutable acknowledgement records
 and dead-letter list, and the attempt loop over them, proved against the
 closed form of a delivery.
 */
module DeliveryEngine {
  import opened Results
  import opened Delivery
  import opened DeliveryOutcome

  class AckTracker {
    var records: map<string, Ack>

    constructor ()
      ensures records == map[]
    {
      records := map[];
    }

    method RecordAttempt(id: string, dest: string)
      modifies this
      ensures records == old(records)[Key(id, dest) := Attempted(Get(old(records), Key(id, dest)), id, dest)]
      ensures Key(id, dest) !in old(records) ==> records[Key(id, dest)] == Ack(id, dest, Pending, 1, None)
    {
      var key := Key(id, dest);
      if key !in records {
        records := records[key := Ack(id, dest, Pending, 1, None)];
      } else {
        records := records[key := records[key].(attempts := records[key].attempts + 1)];
      }
    }

    method RecordAck(id: string, dest: string)
      modifies this
      ensures records == old(records)[Key(id, dest) := Acked(Get(old(records), Key(id, dest)), id, dest)]
      ensures Key(id, dest) !in old(records) ==> records[Key(id, dest)] == Ack(id, dest, Acknowledged, 1, None)
    {
      var key := Key(id, dest);
      var a := if key in records then records[key] else Ack(id, dest, Acknowledged, 1, None);
      records := records[key := a.(status := Acknowledged)];
    }

    method RecordFailure(id: string, dest: string, error: string, isDlq: bool)
      modifies this
      ensures records == old(records)[Key(id, dest) := Failed(Get(old(records), Key(id, dest)), id, dest, error, isDlq)]
      ensures Key(id, dest) !in old(records) ==>
                records[Key(id, dest)] == Ack(id, dest, if isDlq then DlqPromoted else RetriableFailure, 1, Some(error))
    {
      var key := Key(id, dest);
      var a := if key in records then records[key] else Ack(id, dest, RetriableFailure, 1, None);
      var status := if isDlq then DlqPromoted else RetriableFailure;
      records := records[key := a.(status := status, lastError := Some(error))];
    }
  }

  class DeadLetterQueue {
    var letters: seq<DeadLetter>

    constructor ()
      ensures letters == []
    {
      letters := [];
    }

    method Push(e: Event, destination: string, attempts: int, code: FailureCode, error: string)
      modifies this
      ensures letters == old(letters) + [DeadLetter(e.id, destination, attempts, code, error, e)]
    {
      letters := letters + [DeadLetter(e.id, destination, attempts, code, error, e)];
    }
  }

  class RetryEngine {
    const cfg: Config
    const acks: AckTracker
    const dlq: DeadLetterQueue

    constructor (cfg: Config, acks: AckTracker, dlq: DeadLetterQueue)
      ensures this.cfg == cfg && this.acks == acks && this.dlq == dlq
    {
      this.cfg, this.acks, this.dlq := cfg, acks, dlq;
    }

    /** One attempt: record it, send, and record what the send did. */
    method Attempt(c: Connector, e: Event, attempt: int) returns (verdict: Option<bool>)
      modifies acks, dlq
      ensures verdict == match c.outcome(attempt)
                         case Delivered => Some(true)
                         case Permanent(_) => Some(false)
                         case Transient(_) => None
      ensures var key := Key(e.id, c.name);
              acks.records == old(acks.records)[key := AttemptAck(Get(old(acks.records), key), c, e, attempt)]
      ensures dlq.letters == old(dlq.letters) + AttemptLetters(c, e, attempt)
    {
      acks.RecordAttempt(e.id, c.name);
      match c.outcome(attempt) {
        case Delivered =>
          acks.RecordAck(e.id, c.name);
          verdict := Some(true);
        case Permanent(error) =>
          acks.RecordFailure(e.id, c.name, error, true);
          dlq.Push(e, c.name, attempt, PermanentSchemaError, error);
          verdict := Some(false);
        case Transient(error) =>
          acks.RecordFailure(e.id, c.name, error, false);
          verdict := None;
      }
    }

    /** One delivery, undisturbed: the result, the shared state and the sleeps are the closed form. */
    method DeliverToConnector(c: Connector, e: Event) returns (ok: bool, waits: seq<real>)
      modifies acks, dlq
      ensures Concluded(cfg, c, e, old(acks.records), acks.records, old(dlq.letters), dlq.letters, ok, waits)
    {
      ghost var records, letters := acks.records, dlq.letters;
      ghost var ack := Get(records, Key(e.id, c.name));
      var backoff, lastError, attempt := cfg.initialBackoff, "", 1;
      waits := [];
      StartsTrying(cfg, c);
      while attempt <= cfg.maxRetries
        invariant Trying(cfg, c, attempt, lastError, backoff, waits)
        invariant dlq.letters == letters && Held(acks.records, records, c, e, attempt)
      {
        ghost var before := acks.records;
        var verdict := Attempt(c, e, attempt);
        if verdict.Some? {
          DecidedConcludes(cfg, c, e, records, before, letters, attempt, lastError, backoff, waits);
          return verdict.value, waits;
        }
        HeldAgain(before, records, c, e, attempt);
        TriesAgain(cfg, c, attempt, lastError, backoff, waits);
        lastError := c.outcome(attempt).error;
        if attempt < cfg.maxRetries {
          waits := waits + [backoff];
          backoff := Min(backoff * 2.0, cfg.maxBackoff);
        }
        attempt := attempt + 1;
      }
      GivenUpConcludes(cfg, c, e, records, acks.records, letters, attempt, lastError, backoff, waits);
      acks.RecordFailure(e.id, c.name, lastError, true);
      dlq.Push(e, c.name, cfg.maxRetries, DestinationUnavailable, lastError);
      ok := false;
    }
  }

  /** What a delivery returned and left behind is the closed form, and no other record changed. */
  ghost predicate Concluded(
      cfg: Config, c: Connector, e: Event, records: map<string, Ack>, records': map<string, Ack>,
      letters: seq<DeadLetter>, letters': seq<DeadLetter>, ok: bool, waits: seq<real>)
  {
    var s := Conclusion(cfg, c, e, Get(records, Key(e.id, c.name)), letters);
    && s.phase == Finished(ok) && s.waits == waits && s.letters == letters' && s.ack.Some?
    && records' == records[Key(e.id, c.name) := s.ack.value]
  }

  /** The records before an attempt, after the transient failures so far. */
  ghost predicate Held(now: map<string, Ack>, records: map<string, Ack>, c: Connector, e: Event, attempt: int) {
    && attempt >= 1 && TransientBefore(c, attempt)
    && var key := Key(e.id, c.name);
       now == if attempt == 1 then records else records[key := TransientAck(Get(records, key), c, e, attempt - 1)]
  }

  lemma HeldAgain(now: map<string, Ack>, records: map<string, Ack>, c: Connector, e: Event, attempt: int)
    requires Held(now, records, c, e, attempt) && c.outcome(attempt).Transient?
    ensures var key := Key(e.id, c.name);
            Held(now[key := AttemptAck(Get(now, key), c, e, attempt)], records, c, e, attempt + 1)
  {
    TransientNext(Get(records, Key(e.id, c.name)), c, e, attempt);
  }

  lemma DecidedConcludes(
      cfg: Config, c: Connector, e: Event, records: map<string, Ack>, now: map<string, Ack>, letters: seq<DeadLetter>,
      attempt: int, lastError: string, backoff: real, waits: seq<real>)
    requires Held(now, records, c, e, attempt) && Trying(cfg, c, attempt, lastError, backoff, waits)
    requires attempt <= cfg.maxRetries && !c.outcome(attempt).Transient?
    ensures var key := Key(e.id, c.name);
            Concluded(cfg, c, e, records, now[key := AttemptAck(Get(now, key), c, e, attempt)],
                      letters, letters + AttemptLetters(c, e, attempt), c.outcome(attempt).Delivered?, waits)
  {
    DecidedBy(cfg, c, e, Get(records, Key(e.id, c.name)), letters, attempt);
  }

  lemma GivenUpConcludes(
      cfg: Config, c: Connector, e: Event, records: map<string, Ack>, now: map<string, Ack>, letters: seq<DeadLetter>,
      attempt: int, lastError: string, backoff: real, waits: seq<real>)
    requires Held(now, records, c, e, attempt) && Trying(cfg, c, attempt, lastError, backoff, waits)
    requires attempt > cfg.maxRetries
    ensures var key := Key(e.id, c.name);
            Concluded(cfg, c, e, records, now[key := Failed(Get(now, key), e.id, c.name, lastError, true)],
                      letters, letters + [Exhausted(cfg, c, e, lastError)], false, waits)
  {
    if cfg.maxRetries >= 1 {
      var ack := Get(records, Key(e.id, c.name));
      DecidedBy(cfg, c, e, ack, letters, cfg.maxRetries);
      TransientNext(ack, c, e, cfg.maxRetries);
    }
  }

  /** The loop's variables before an attempt. */
  ghost predicate Trying(cfg: Config, c: Connector, attempt: int, lastError: string, backoff: real, waits: seq<real>) {
    && 1 <= attempt && TransientBefore(c, attempt) && (attempt > 1 ==> attempt <= cfg.maxRetries + 1)
    && lastError == (if attempt == 1 then "" else c.outcome(attempt - 1).error)
    && backoff == Backoff(cfg, Slept(cfg, attempt)) && waits == Waits(cfg, Slept(cfg, attempt))
  }

  /** How often the loop has slept: between attempts, but not after the last. */
  function Slept(cfg: Config, attempt: int): nat
    requires attempt >= 1
  {
    if attempt <= cfg.maxRetries || attempt == 1 then attempt - 1 else attempt - 2
  }

  lemma StartsTrying(cfg: Config, c: Connector)
    ensures Trying(cfg, c, 1, "", cfg.initialBackoff, [])
  {
  }

  lemma TriesAgain(cfg: Config, c: Connector, attempt: int, lastError: string, backoff: real, waits: seq<real>)
    requires Trying(cfg, c, attempt, lastError, backoff, waits) && attempt <= cfg.maxRetries
    requires c.outcome(attempt).Transient?
    ensures if attempt < cfg.maxRetries
            then Trying(cfg, c, attempt + 1, c.outcome(attempt).error, Min(backoff * 2.0, cfg.maxBackoff),
                waits + [backoff])
            else Trying(cfg, c, attempt + 1, c.outcome(attempt).error, backoff, waits)
  {
    if attempt < cfg.maxRetries {
      assert Waits(cfg, attempt) == Waits(cfg, attempt - 1) + [Backoff(cfg, attempt - 1)];
    }
  }

  /** The record an attempt finds. */
  ghost function RecordBefore(ack: Option<Ack>, c: Connector, e: Event, a: nat): Option<Ack>
    requires a >= 1 && TransientBefore(c, a)
  {
    if a == 1 then ack else Some(TransientAck(ack, c, e, a - 1))
  }

  lemma TransientNext(ack: Option<Ack>, c: Connector, e: Event, a: nat)
    requires a >= 1 && TransientBefore(c, a) && c.outcome(a).Transient?
    ensures AttemptAck(RecordBefore(ack, c, e, a), c, e, a) == TransientAck(ack, c, e, a)
  {
    NextAck(ack, c, e, a);
  }

  /** The closed form, when attempt `a` is the last one made. */
  lemma DecidedBy(cfg: Config, c: Connector, e: Event, ack: Option<Ack>, letters: seq<DeadLetter>, a: int)
    requires 1 <= a <= cfg.maxRetries && TransientBefore(c, a) && (c.outcome(a).Transient? ==> a == cfg.maxRetries)
    ensures var s, last := Conclusion(cfg, c, e, ack, letters), AttemptAck(RecordBefore(ack, c, e, a), c, e, a);
            && s.phase == Finished(c.outcome(a).Delivered?) && s.waits == Waits(cfg, a - 1)
            && (match c.outcome(a)
                case Transient(error) =>
                  && s.letters == letters + [Exhausted(cfg, c, e, error)]
                  && s.ack == Some(Failed(Some(last), e.id, c.name, error, true))
                case _ => s.letters == letters + AttemptLetters(c, e, a) && s.ack == Some(last))
  {
    Decides(c, a, cfg.maxRetries);
    NextAck(ack, c, e, a);
  }

  /** The record after attempt `a`, from the record before it. */
  function AttemptAck(r: Option<Ack>, c: Connector, e: Event, a: int): Ack {
    var sent := Some(Attempted(r, e.id, c.name));
    match c.outcome(a)
    case Delivered => Acked(sent, e.id, c.name)
    case Permanent(error) => Failed(sent, e.id, c.name, error, true)
    case Transient(error) => Failed(sent, e.id, c.name, error, false)
  }

  function AttemptLetters(c: Connector, e: Event, a: int): seq<DeadLetter> {
    match c.outcome(a)
    case Permanent(error) => [DeadLetter(e.id, c.name, a, PermanentSchemaError, error, e)]
    case _ => []
  }

  /** The record after `a` transient failures. */
  ghost function TransientAck(ack: Option<Ack>, c: Connector, e: Event, a: nat): Ack
    requires a >= 1 && TransientBefore(c, a + 1)
  {
    SendingAck(ack, c, e, a).(status := RetriableFailure, lastError := Some(c.outcome(a).error))
  }

  lemma NextAck(ack: Option<Ack>, c: Connector, e: Event, a: nat)
    requires a >= 1 && TransientBefore(c, a)
    ensures a == 1 ==> Attempted(ack, e.id, c.name) == SendingAck(ack, c, e, a)
    ensures a > 1 ==> Attempted(Some(TransientAck(ack, c, e, a - 1)), e.id, c.name) == SendingAck(ack, c, e, a)
  {
  }

  /** The attempt at which the loop stops is the deciding one. */
  lemma Decides(c: Connector, d: int, max: int)
    requires 1 <= d <= max && TransientBefore(c, d)
    requires c.outcome(d).Transient? ==> d == max
    ensures LastAttempt(c, 1, max) == d
  {
    var l := LastAttempt(c, 1, max);
    assert d < l ==> c.outcome(d).Transient?;
    assert l < d ==> c.outcome(l).Transient?;
  }
}
