/**
 The dual write of the ingestion boundary as a protocol: vault, publish, spool
 and replay steps, with failures, ambiguous publishes and crashes
 (M1/modules/m1-ingestion/app/transports/pipeline.py, app/storage/outbox.py).
 */
module OutboxProtocol {

  type Id = string

  /** Where an ingest call is suspended. */
  datatype Phase = Vaulting | Publishing | Spooling

  /** A replay pass: the rows it still has to handle, and whether the first one is already published. */
  datatype Replay = Replay(todo: seq<Id>, headPublished: bool)

  /**
   `vault`, `published` and `outbox` survive a crash; the calls in flight and
   the replay passes do not. The rest records what went wrong: `unconfirmed` a
   vault write that took effect although its call failed or died, `lost` a
   crash after the vault write, `unspooled` a failed publish without a spool.
   */
  datatype System = System(
    started: set<Id>, vault: set<Id>, published: set<Id>, outbox: set<Id>,
    inFlight: map<Id, Phase>, replays: map<nat, Replay>,
    unconfirmed: set<Id>, lost: set<Id>, unspooled: set<Id>)

  /**
   A write that raises may have taken effect nevertheless (`done`); so may any
   write that a crash interrupts.
   */
  datatype Step =
    | Begin(id: Id)
    | VaultOk(id: Id)
    | VaultFails(id: Id, done: bool)
    | PublishOk(id: Id)
    | PublishFails(id: Id, done: bool, hasOutbox: bool)
    | SpoolOk(id: Id)
    | SpoolFails(id: Id, done: bool)
    | ReplayStarts(worker: nat, batch: seq<Id>)
    | ReplayPublishOk(worker: nat)
    | ReplayPublishFails(worker: nat, done: bool)
    | ReplayMarkOk(worker: nat)
    | ReplayMarkFails(worker: nat, done: bool)
    | Crash(vaulted: set<Id>, delivered: set<Id>, spooled: set<Id>, unlisted: set<Id>)

  predicate At(s: System, id: Id, ph: Phase) {
    id in s.inFlight && s.inFlight[id] == ph
  }

  predicate Working(s: System, w: nat, headPublished: bool) {
    w in s.replays && s.replays[w].todo != [] && s.replays[w].headPublished == headPublished
  }

  /** The rows that replay passes are publishing (or have published and are removing). */
  function Heads(s: System, headPublished: bool): set<Id> {
    set w | w in s.replays && Working(s, w, headPublished) :: s.replays[w].todo[0]
  }

  function InPhase(s: System, ph: Phase): set<Id> {
    set id | id in s.inFlight && s.inFlight[id] == ph
  }

  predicate Enabled(s: System, step: Step) {
    match step
    case Begin(id) => id !in s.started
    case VaultOk(id) => At(s, id, Vaulting)
    case VaultFails(id, _) => At(s, id, Vaulting)
    case PublishOk(id) => At(s, id, Publishing)
    case PublishFails(id, _, _) => At(s, id, Publishing)
    case SpoolOk(id) => At(s, id, Spooling)
    case SpoolFails(id, _) => At(s, id, Spooling)
    case ReplayStarts(w, batch) => w !in s.replays && forall id :: id in batch ==> id in s.outbox
    case ReplayPublishOk(w) => Working(s, w, false)
    case ReplayPublishFails(w, _) => Working(s, w, false)
    case ReplayMarkOk(w) => Working(s, w, true)
    case ReplayMarkFails(w, _) => Working(s, w, true)
    case Crash(vaulted, delivered, spooled, unlisted) =>
      && vaulted <= InPhase(s, Vaulting) && delivered <= InPhase(s, Publishing) + Heads(s, false)
      && spooled <= InPhase(s, Spooling) && unlisted <= Heads(s, true)
  }

  function Next(s: System, step: Step): System
    requires Enabled(s, step)
  {
    match step
    case Begin(id) => s.(started := s.started + {id}, inFlight := s.inFlight[id := Vaulting])
    case VaultOk(id) => s.(vault := s.vault + {id}, inFlight := s.inFlight[id := Publishing])
    case VaultFails(id, done) =>
      var s' := s.(inFlight := s.inFlight - {id});
      if done then s'.(vault := s.vault + {id}, unconfirmed := s.unconfirmed + {id}) else s'
    case PublishOk(id) => s.(published := s.published + {id}, inFlight := s.inFlight - {id})
    case PublishFails(id, done, hasOutbox) =>
      var s' := if done then s.(published := s.published + {id}) else s;
      if hasOutbox then s'.(inFlight := s.inFlight[id := Spooling])
      else s'.(inFlight := s.inFlight - {id}, unspooled := s.unspooled + {id})
    case SpoolOk(id) => s.(outbox := s.outbox + {id}, inFlight := s.inFlight - {id})
    case SpoolFails(id, done) =>
      s.(outbox := if done then s.outbox + {id} else s.outbox,
         unspooled := s.unspooled + {id}, inFlight := s.inFlight - {id})
    case ReplayStarts(w, batch) => s.(replays := s.replays[w := Replay(batch, false)])
    case ReplayPublishOk(w) =>
      var r := s.replays[w];
      s.(published := s.published + {r.todo[0]}, replays := s.replays[w := r.(headPublished := true)])
    case ReplayPublishFails(w, done) =>
      // the attempt is recorded on the row and the pass stops
      var head := s.replays[w].todo[0];
      s.(published := if done then s.published + {head} else s.published, replays := s.replays - {w})
    case ReplayMarkOk(w) =>
      var r := s.replays[w];
      s.(outbox := s.outbox - {r.todo[0]}, replays := s.replays[w := Replay(r.todo[1..], false)])
    case ReplayMarkFails(w, done) =>
      var head := s.replays[w].todo[0];
      s.(outbox := if done then s.outbox - {head} else s.outbox, replays := s.replays - {w})
    case Crash(vaulted, delivered, spooled, unlisted) =>
      s.(vault := s.vault + vaulted, published := s.published + delivered, outbox := s.outbox + spooled - unlisted,
         inFlight := map[], replays := map[], unconfirmed := s.unconfirmed + vaulted, lost := s.lost + Pending(s))
  }

  /** In flight past the vault write. */
  function Pending(s: System): set<Id> {
    set id | id in s.inFlight && s.inFlight[id] != Vaulting
  }

  const EMPTY := System({}, {}, {}, {}, map[], map[], {}, {}, {})

  /** Every step of the run is taken where it is enabled. */
  predicate IsRun(steps: seq<Step>)
    decreases |steps|, 0
  {
    steps == [] || (IsRun(steps[..|steps| - 1]) && Enabled(After(steps[..|steps| - 1]), steps[|steps| - 1]))
  }

  function After(steps: seq<Step>): System
    requires IsRun(steps)
    decreases |steps|, 1
  {
    if steps == [] then EMPTY else Next(After(steps[..|steps| - 1]), steps[|steps| - 1])
  }

  /** `s'` is reached from `s` by these steps, each taken where it is enabled. */
  ghost predicate Leads(s: System, steps: seq<Step>, s': System)
    decreases |steps|
  {
    if steps == [] then s == s'
    else Enabled(s, steps[0]) && Leads(Next(s, steps[0]), steps[1..], s')
  }

  // ---- what every run keeps ----

  ghost predicate Inv(s: System) {
    && s.published <= s.vault && s.outbox <= s.vault && s.vault <= s.started
    && s.inFlight.Keys <= s.started && Pending(s) <= s.vault && Troubled(s) <= s.vault
    && s.vault <= Safe(s) + Troubled(s)
    && (forall w :: w in s.replays ==> forall id :: id in s.replays[w].todo ==> id in s.vault)
    && (forall w :: w in s.replays && s.replays[w].headPublished && s.replays[w].todo != []
          ==> s.replays[w].todo[0] in s.published)
  }

  /** Published, waiting in the outbox, or still being handled. */
  function Safe(s: System): set<Id> {
    s.published + s.outbox + Pending(s)
  }

  /** Recorded as having gone wrong after the payload was stored. */
  function Troubled(s: System): set<Id> {
    s.unconfirmed + s.lost + s.unspooled
  }

  lemma IngestKeepsInv(s: System, step: Step)
    requires Inv(s) && Enabled(s, step)
    requires step.Begin? || step.VaultOk? || step.VaultFails? || step.PublishOk? || step.PublishFails?
             || step.SpoolOk? || step.SpoolFails?
    ensures Inv(Next(s, step))
  {
    var s' := Next(s, step);
    assert forall id :: id in Pending(s) && id != step.id ==> id in Pending(s');
  }

  lemma ReplayKeepsInv(s: System, step: Step)
    requires Inv(s) && Enabled(s, step)
    requires step.ReplayStarts? || step.ReplayPublishOk? || step.ReplayPublishFails?
             || step.ReplayMarkOk? || step.ReplayMarkFails?
    ensures Inv(Next(s, step))
  {
    var s' := Next(s, step);
    assert Pending(s') == Pending(s);
    if step.ReplayStarts? {
      assert forall id :: id in step.batch ==> id in s.vault;
    } else {
      assert s.replays[step.worker].todo[0] in s.replays[step.worker].todo;
      assert forall id :: id in s.replays[step.worker].todo[1..] ==> id in s.replays[step.worker].todo;
    }
  }

  lemma CrashKeepsInv(s: System, step: Step)
    requires Inv(s) && step.Crash? && Enabled(s, step)
    ensures Inv(Next(s, step))
  {
    assert InPhase(s, Publishing) <= Pending(s) && InPhase(s, Spooling) <= Pending(s);
    forall id | id in Heads(s, false) ensures id in s.vault {
      var w :| w in s.replays && Working(s, w, false) && s.replays[w].todo[0] == id;
      assert id in s.replays[w].todo;
    }
    forall id | id in Heads(s, true) ensures id in s.published {
      var w :| w in s.replays && Working(s, w, true) && s.replays[w].todo[0] == id;
    }
    assert Pending(Next(s, step)) == {};
  }

  lemma {:induction false} RunKeepsInv(steps: seq<Step>)
    requires IsRun(steps)
    ensures Inv(After(steps))
    decreases |steps|
  {
    if steps != [] {
      var s, step := After(steps[..|steps| - 1]), steps[|steps| - 1];
      RunKeepsInv(steps[..|steps| - 1]);
      match step
      case Crash(_, _, _, _) => CrashKeepsInv(s, step);
      case ReplayStarts(_, _) => ReplayKeepsInv(s, step);
      case ReplayPublishOk(_) => ReplayKeepsInv(s, step);
      case ReplayPublishFails(_, _) => ReplayKeepsInv(s, step);
      case ReplayMarkOk(_) => ReplayKeepsInv(s, step);
      case ReplayMarkFails(_, _) => ReplayKeepsInv(s, step);
      case _ => IngestKeepsInv(s, step);
    }
  }

  /** No orphaned evidence: publishing follows the vault, and vaulted evidence is accounted for. */
  lemma NoOrphanedEvidence(steps: seq<Step>, id: Id)
    requires IsRun(steps)
    ensures var s := After(steps);
      && (id in s.published ==> id in s.vault)
      && (id in s.outbox ==> id in s.vault)
      && (id in s.vault ==> id in s.published || id in s.outbox || id in Pending(s) || id in Troubled(s))
  {
    RunKeepsInv(steps);
  }

  // ---- orphans ----

  /** Stored, but neither published nor waiting nor being handled. */
  predicate Orphan(s: System, id: Id) {
    id in s.vault && id !in Safe(s)
  }

  /** The steps that orphan a payload, by what they fail to do. */
  predicate Orphans(s: System, step: Step, id: Id) {
    match step
    case VaultFails(i, done) => i == id && done
    case PublishFails(i, done, hasOutbox) => i == id && !done && !hasOutbox
    case SpoolFails(i, done) => i == id && !done && id !in s.published
    case Crash(vaulted, delivered, spooled, _) =>
      id in vaulted || (id in Pending(s) && id !in delivered && id !in spooled && id !in s.published)
    case _ => false
  }

  /** What is being stored is not stored yet, what is being handled is not waiting, and replays handle no orphans. */
  ghost predicate FlightInv(s: System) {
    && InPhase(s, Vaulting) !! s.vault && Pending(s) !! s.outbox && InPhase(s, Publishing) !! s.published
    && forall w, id :: w in s.replays && id in s.replays[w].todo ==> id in s.published || id in s.outbox
  }

  /** Only the step's own event changes its phase. */
  lemma OthersStay(s: System, step: Step, id: Id)
    requires Enabled(s, step)
    requires step.Begin? || step.VaultOk? || step.VaultFails? || step.PublishOk? || step.PublishFails?
             || step.SpoolOk? || step.SpoolFails?
    requires id != step.id
    ensures id in Pending(Next(s, step)) <==> id in Pending(s)
    ensures id in InPhase(Next(s, step), Vaulting) <==> id in InPhase(s, Vaulting)
    ensures id in InPhase(Next(s, step), Publishing) <==> id in InPhase(s, Publishing)
    ensures id in Next(s, step).vault <==> id in s.vault
    ensures id in Next(s, step).published <==> id in s.published
    ensures id in Next(s, step).outbox <==> id in s.outbox
  {
  }

  lemma OwnFlight(s: System, step: Step)
    requires Inv(s) && FlightInv(s) && Enabled(s, step)
    requires step.Begin? || step.VaultOk? || step.VaultFails? || step.PublishOk? || step.PublishFails?
             || step.SpoolOk? || step.SpoolFails?
    ensures var s', id := Next(s, step), step.id;
            && !(id in InPhase(s', Vaulting) && id in s'.vault) && !(id in Pending(s') && id in s'.outbox)
            && !(id in InPhase(s', Publishing) && id in s'.published)
  {
    assert step.id in s.inFlight ==> step.id in InPhase(s, s.inFlight[step.id]);
    assert step.id in s.inFlight && s.inFlight[step.id] != Vaulting ==> step.id in Pending(s);
  }

  lemma IngestKeepsFlight(s: System, step: Step)
    requires Inv(s) && FlightInv(s) && Enabled(s, step)
    requires step.Begin? || step.VaultOk? || step.VaultFails? || step.PublishOk? || step.PublishFails?
             || step.SpoolOk? || step.SpoolFails?
    ensures FlightInv(Next(s, step))
  {
    var s' := Next(s, step);
    OwnFlight(s, step);
    forall id
      ensures !(id in InPhase(s', Vaulting) && id in s'.vault) && !(id in Pending(s') && id in s'.outbox)
      ensures !(id in InPhase(s', Publishing) && id in s'.published)
    {
      if id != step.id {
        OthersStay(s, step, id);
      }
    }
  }

  lemma ReplayKeepsFlight(s: System, step: Step)
    requires Inv(s) && FlightInv(s) && Enabled(s, step)
    requires step.ReplayStarts? || step.ReplayPublishOk? || step.ReplayPublishFails?
             || step.ReplayMarkOk? || step.ReplayMarkFails?
    ensures FlightInv(Next(s, step))
  {
    var s' := Next(s, step);
    assert Pending(s') == Pending(s) && InPhase(s', Vaulting) == InPhase(s, Vaulting);
    assert InPhase(s', Publishing) == InPhase(s, Publishing) && InPhase(s, Publishing) <= Pending(s);
    if !step.ReplayStarts? {
      var todo := s.replays[step.worker].todo;
      assert todo[0] in todo && forall id :: id in todo[1..] ==> id in todo;
      NotBothHandled(s, step.worker);
    }
  }

  /** The row a replay works on is not in flight to its first publish. */
  lemma NotBothHandled(s: System, w: nat)
    requires Inv(s) && FlightInv(s) && w in s.replays && s.replays[w].todo != []
    ensures s.replays[w].todo[0] !in InPhase(s, Publishing)
  {
    var head := s.replays[w].todo[0];
    assert head in s.replays[w].todo;
    assert head in InPhase(s, Publishing) ==> head in Pending(s);
  }

  lemma CrashKeepsFlight(s: System, step: Step)
    requires step.Crash? && Enabled(s, step)
    ensures FlightInv(Next(s, step))
  {
  }

  lemma StepKeepsFlight(s: System, step: Step)
    requires Inv(s) && FlightInv(s) && Enabled(s, step)
    ensures FlightInv(Next(s, step))
  {
    match step
    case Crash(_, _, _, _) => CrashKeepsFlight(s, step);
    case ReplayStarts(_, _) => ReplayKeepsFlight(s, step);
    case ReplayPublishOk(_) => ReplayKeepsFlight(s, step);
    case ReplayPublishFails(_, _) => ReplayKeepsFlight(s, step);
    case ReplayMarkOk(_) => ReplayKeepsFlight(s, step);
    case ReplayMarkFails(_, _) => ReplayKeepsFlight(s, step);
    case _ => IngestKeepsFlight(s, step);
  }

  lemma {:induction false} RunKeepsFlight(steps: seq<Step>)
    requires IsRun(steps)
    ensures FlightInv(After(steps))
    decreases |steps|
  {
    if steps != [] {
      RunKeepsFlight(steps[..|steps| - 1]);
      RunKeepsInv(steps[..|steps| - 1]);
      StepKeepsFlight(After(steps[..|steps| - 1]), steps[|steps| - 1]);
    }
  }

  lemma IngestOrphans(s: System, step: Step, id: Id)
    requires Inv(s) && FlightInv(s) && Enabled(s, step)
    requires step.Begin? || step.VaultOk? || step.VaultFails? || step.PublishOk? || step.PublishFails?
             || step.SpoolOk? || step.SpoolFails?
    ensures Orphan(Next(s, step), id) <==> Orphan(s, id) || Orphans(s, step, id)
  {
    var s' := Next(s, step);
    assert id != step.id ==> (id in Pending(s') <==> id in Pending(s));
    assert step.id in s.inFlight ==> step.id in InPhase(s, s.inFlight[step.id]);
    assert step.id in s.inFlight && s.inFlight[step.id] != Vaulting ==> step.id in Pending(s);
    assert step.id in s'.inFlight && s'.inFlight[step.id] != Vaulting ==> step.id in Pending(s');
  }

  lemma ReplayOrphans(s: System, step: Step, id: Id)
    requires Inv(s) && FlightInv(s) && Enabled(s, step)
    requires step.ReplayStarts? || step.ReplayPublishOk? || step.ReplayPublishFails?
             || step.ReplayMarkOk? || step.ReplayMarkFails?
    ensures Orphan(Next(s, step), id) <==> Orphan(s, id)
  {
    assert Pending(Next(s, step)) == Pending(s);
    if !step.ReplayStarts? {
      assert s.replays[step.worker].todo[0] in s.replays[step.worker].todo;
    }
  }

  lemma CrashOrphans(s: System, step: Step, id: Id)
    requires Inv(s) && FlightInv(s) && step.Crash? && Enabled(s, step)
    ensures Orphan(Next(s, step), id) <==> Orphan(s, id) || Orphans(s, step, id)
  {
    var s' := Next(s, step);
    assert Pending(s') == {};
    assert InPhase(s, Publishing) <= Pending(s) && InPhase(s, Spooling) <= Pending(s);
    forall i | i in Heads(s, false) ensures i in s.published || i in s.outbox {
      var w :| w in s.replays && Working(s, w, false) && s.replays[w].todo[0] == i;
      assert i in s.replays[w].todo;
    }
    forall i | i in Heads(s, true) ensures i in s.published {
      var w :| w in s.replays && Working(s, w, true) && s.replays[w].todo[0] == i;
    }
  }

  /** One step orphans exactly what `Orphans` says, and nothing is ever un-orphaned. */
  lemma StepOrphans(s: System, step: Step, id: Id)
    requires Inv(s) && FlightInv(s) && Enabled(s, step)
    ensures Orphan(Next(s, step), id) <==> Orphan(s, id) || Orphans(s, step, id)
  {
    match step
    case Crash(_, _, _, _) => CrashOrphans(s, step, id);
    case ReplayStarts(_, _) => ReplayOrphans(s, step, id);
    case ReplayPublishOk(_) => ReplayOrphans(s, step, id);
    case ReplayPublishFails(_, _) => ReplayOrphans(s, step, id);
    case ReplayMarkOk(_) => ReplayOrphans(s, step, id);
    case ReplayMarkFails(_, _) => ReplayOrphans(s, step, id);
    case _ => IngestOrphans(s, step, id);
  }

  ghost predicate OrphansAt(steps: seq<Step>, k: nat, id: Id) {
    k < |steps| && IsRun(steps[..k]) && Orphans(After(steps[..k]), steps[k], id)
  }

  lemma OrphansInFront(steps: seq<Step>, k: nat, id: Id)
    requires steps != [] && IsRun(steps)
    ensures OrphansAt(steps, k, id) <==>
            if k < |steps| - 1 then OrphansAt(steps[..|steps| - 1], k, id)
            else k == |steps| - 1 && Orphans(After(steps[..|steps| - 1]), steps[|steps| - 1], id)
  {
    if k < |steps| - 1 {
      assert steps[..|steps| - 1][..k] == steps[..k];
    }
  }

  /** In every run, a payload is orphaned exactly if some step of the run orphaned it. */
  lemma {:induction false} OrphansExactly(steps: seq<Step>, id: Id)
    requires IsRun(steps)
    ensures Orphan(After(steps), id) <==> exists k :: OrphansAt(steps, k, id)
    decreases |steps|
  {
    if steps != [] {
      var front, n := steps[..|steps| - 1], |steps| - 1;
      OrphansExactly(front, id);
      RunKeepsInv(front);
      RunKeepsFlight(front);
      StepOrphans(After(front), steps[n], id);
      forall k: nat
        ensures OrphansAt(steps, k, id) <==>
                if k < n then OrphansAt(front, k, id) else k == n && Orphans(After(front), steps[n], id)
      {
        OrphansInFront(steps, k, id);
      }
      assert forall k: nat :: OrphansAt(front, k, id) ==> k < n;
      assert OrphansAt(steps, n, id) <==> Orphans(After(front), steps[n], id);
    }
  }

  /** A vault write that raises after taking effect leaves an object nobody will ever publish. */
  lemma FailedWriteOrphans(id: Id)
    ensures var steps := [Begin(id), VaultFails(id, true)];
            IsRun(steps) && Orphan(After(steps), id)
  {
    var steps := [Begin(id), VaultFails(id, true)];
    assert steps[..1][..0] == [] && steps[..1] == [Begin(id)];
    assert IsRun([]) && IsRun(steps[..1]);
    assert After(steps[..1]) == Next(EMPTY, Begin(id));
    assert IsRun(steps);
    assert After(steps) == Next(After(steps[..1]), VaultFails(id, true));
  }

  lemma RowsAndPublished(s: System, step: Step)
    requires Inv(s) && Enabled(s, step)
    ensures s.published <= Next(s, step).published
    ensures s.outbox <= Next(s, step).outbox + Next(s, step).published
  {
    if step.Crash? {
      forall id | id in Heads(s, true) ensures id in s.published {
        var w :| w in s.replays && Working(s, w, true) && s.replays[w].todo[0] == id;
      }
    }
  }

  /** A row that has left the outbox was published, at every later point of every run. */
  lemma {:induction false} RowsLeaveOnlyPublished(steps: seq<Step>, n: nat, id: Id)
    requires IsRun(steps) && n <= |steps| && IsRun(steps[..n]) && id in After(steps[..n]).outbox
    ensures id in After(steps).outbox || id in After(steps).published
    decreases |steps|
  {
    if n == |steps| {
      assert steps[..n] == steps;
    } else {
      var prefix := steps[..|steps| - 1];
      assert prefix[..n] == steps[..n];
      RowsLeaveOnlyPublished(prefix, n, id);
      RunKeepsInv(prefix);
      RowsAndPublished(After(prefix), steps[|steps| - 1]);
    }
  }

  /** With nothing in flight and no trouble recorded, an empty outbox means everything vaulted is published. */
  lemma QuietMeansComplete(steps: seq<Step>)
    requires IsRun(steps)
    ensures var s := After(steps);
      s.inFlight == map[] && s.outbox == {} && Troubled(s) == {} ==> s.vault == s.published
  {
    RunKeepsInv(steps);
    var s := After(steps);
    assert s.inFlight == map[] ==> Pending(s) == {};
  }
}
