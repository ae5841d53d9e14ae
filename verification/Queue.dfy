/**
  The intermediate-update queue of one request
  (crates/keycompute-db/src/lifecycle.rs, lines 108-327).

  All shared state of the recorder is keyed by request id, so `Proto` is the part
  that belongs to one request: its entry in the worker map, the workers spawned for
  it with their channels, its failure marker, and the flushes and detached cleanups
  issued for it.  Steps are the critical sections and channel operations of
  producers, workers, flushes and cleanups.
 */
module IntermediateQueue {
  import opened Common

  const CAPACITY: nat := 64

  type Generation = nat

  datatype Entry = Update(id: nat) | FlushBarrier(flush: nat) | CleanupBarrier(cleanup: nat)

  /** What became of an accepted entry. */
  datatype Fate = Written | WriteFailed | Acked(failed: bool) | Lost

  datatype Settled = Settled(entry: Entry, fate: Fate, worker: Generation)

  /**
    `Acking` is between taking the marker and answering the barrier; `Leaving` is
    past the decision to stop; a `Gone` worker's channel is closed.
   */
  datatype Phase = Receiving | Processing(entry: Entry) | Acking(entry: Entry, failed: bool) | Leaving | Gone

  datatype Worker = Worker(queue: seq<Entry>, phase: Phase, aborted: bool)

  /** `Bouncing`: the barrier was refused and the cleanup is still to be scheduled. */
  datatype Stage = Waiting | Bouncing | Returned(ok: bool)

  datatype Flush = Flush(pos: Option<nat>, stage: Stage)

  datatype CleanupStage = Sending | Awaiting(pos: Option<nat>) | Finished

  datatype Cleanup = Cleanup(gen: Generation, flush: nat, stage: CleanupStage)

  /**
    `accepted` lists what entered the registered worker's channel, in order, and
    `settled` the fates of its first elements.  `rejecting` counts refused updates
    whose marker is not inserted yet, `failures` the failures recorded so far.
   */
  datatype Proto = Proto(registered: Option<Generation>, workers: seq<Worker>, marker: bool,
                         flushes: seq<Flush>, cleanups: seq<Cleanup>,
                         accepted: seq<Entry>, settled: seq<Settled>, rejecting: nat, failures: nat)

  const INIT: Proto := Proto(None, [], false, [], [], [], [], 0, 0)

  datatype Action =
    | SendUpdate(id: nat, lastTry: bool)
    | MarkRejected
    | BeginFlush(lastTry: bool)
    | ScheduleCleanup(f: nat)
    | FlushReply(f: nat)
    | FlushTimeout(f: nat)
    | CleanupSend(c: nat)
    | CleanupClosed(c: nat)
    | CleanupDone(c: nat)
    | Receive(g: Generation)
    | IdleTimeout(g: Generation)
    | SendersGone(g: Generation)
    | WriteOk(g: Generation)
    | WriteFails(g: Generation)
    | TakeMarker(g: Generation)
    | SendAck(g: Generation)
    | Leave(g: Generation)
    | Abort(g: Generation)

  // ---- Steps -----------------------------------------------------------------

  /** Handles name workers that were spawned. */
  predicate Wf(s: Proto) {
    && (s.registered.Some? ==> s.registered.value < |s.workers|)
    && (forall c :: 0 <= c < |s.cleanups| ==> s.cleanups[c].gen < |s.workers|)
  }

  /** The worker-map entry, spawning a worker when there is none. */
  function Ensured(s: Proto): (s': Proto)
    requires Wf(s)
    ensures s'.registered.Some? && Wf(s')
  {
    if s.registered.Some? then s
    else s.(registered := Some(|s.workers|), workers := s.workers + [Worker([], Receiving, false)])
  }

  datatype Sent = Accepted | Full | Closed

  function SendResult(s: Proto): Sent
    requires s.registered.Some? && s.registered.value < |s.workers|
  {
    var w := s.workers[s.registered.value];
    if w.phase.Gone? then Closed else if |w.queue| >= CAPACITY then Full else Accepted
  }

  function Enqueue(s: Proto, g: Generation, e: Entry): Proto
    requires g < |s.workers|
  {
    s.(workers := s.workers[g := s.workers[g].(queue := s.workers[g].queue + [e])])
  }

  /** Push on the registered worker's channel. */
  function Accept(s: Proto, e: Entry): Proto
    requires s.registered.Some? && s.registered.value < |s.workers|
  {
    Enqueue(s, s.registered.value, e).(accepted := s.accepted + [e])
  }

  function SetPhase(s: Proto, g: Generation, phase: Phase): Proto
    requires g < |s.workers|
  {
    s.(workers := s.workers[g := s.workers[g].(phase := phase)])
  }

  /** The worker is done with an entry and goes back to its channel. */
  function Settle(s: Proto, g: Generation, e: Entry, fate: Fate): Proto
    requires g < |s.workers|
  {
    SetPhase(s, g, Receiving).(settled := s.settled + [Settled(e, fate, g)])
  }

  function Dequeue(s: Proto, g: Generation): Proto
    requires g < |s.workers| && s.workers[g].queue != []
  {
    var w := s.workers[g];
    s.(workers := s.workers[g := w.(queue := w.queue[1..], phase := Processing(w.queue[0]))])
  }

  function InFlight(phase: Phase): seq<Entry> {
    if phase.Processing? || phase.Acking? then [phase.entry] else []
  }

  /** What the registered worker has taken or still has in its channel. */
  function Pending(s: Proto): seq<Entry>
    requires s.registered.Some? ==> s.registered.value < |s.workers|
  {
    if s.registered.None? then []
    else InFlight(s.workers[s.registered.value].phase) + s.workers[s.registered.value].queue
  }

  function LoseAll(es: seq<Entry>, g: Generation): seq<Settled> {
    seq(|es|, i requires 0 <= i < |es| => Settled(es[i], Lost, g))
  }

  predicate WorkerIn(s: Proto, g: Generation) {
    g < |s.workers|
  }

  predicate Alive(s: Proto, g: Generation) {
    g < |s.workers| && !s.workers[g].phase.Gone?
  }

  predicate Registered(s: Proto, g: Generation) {
    s.registered == Some(g)
  }

  /** The fate of a flush's barrier, once it has one. */
  function BarrierFate(s: Proto, f: nat): Option<Fate>
    requires f < |s.flushes|
  {
    match s.flushes[f].pos
    case None => None
    case Some(p) => if p < |s.settled| then Some(s.settled[p].fate) else None
  }

  predicate CleanupAnswered(s: Proto, c: Cleanup) {
    && c.stage.Awaiting? && c.gen < |s.workers|
    && ((c.stage.pos.Some? && c.stage.pos.value < |s.settled|) || s.workers[c.gen].phase.Gone?)
  }

  predicate Enabled(s: Proto, a: Action) {
    Wf(s) &&
    match a
    case SendUpdate(_, _) => true
    case MarkRejected => s.rejecting > 0
    case BeginFlush(_) => true
    case ScheduleCleanup(f) => f < |s.flushes| && s.flushes[f].stage.Bouncing?
    case FlushReply(f) => f < |s.flushes| && s.flushes[f].stage.Waiting? && BarrierFate(s, f).Some?
    case FlushTimeout(f) => f < |s.flushes| && s.flushes[f].stage.Waiting?
    case CleanupSend(c) =>
      && c < |s.cleanups| && s.cleanups[c].stage.Sending? && Alive(s, s.cleanups[c].gen)
      && |s.workers[s.cleanups[c].gen].queue| < CAPACITY
    case CleanupClosed(c) => c < |s.cleanups| && s.cleanups[c].stage.Sending? && !Alive(s, s.cleanups[c].gen)
    case CleanupDone(c) => c < |s.cleanups| && CleanupAnswered(s, s.cleanups[c])
    case Receive(g) => WorkerIn(s, g) && s.workers[g].phase.Receiving? && s.workers[g].queue != []
    case IdleTimeout(g) => WorkerIn(s, g) && s.workers[g].phase.Receiving?
    case SendersGone(g) =>
      && WorkerIn(s, g) && s.workers[g].phase.Receiving? && s.workers[g].queue == [] && !Registered(s, g)
      && forall c :: 0 <= c < |s.cleanups| ==> s.cleanups[c].gen != g || !s.cleanups[c].stage.Sending?
    case WriteOk(g) => WorkerIn(s, g) && s.workers[g].phase.Processing? && s.workers[g].phase.entry.Update?
    case WriteFails(g) => WorkerIn(s, g) && s.workers[g].phase.Processing? && s.workers[g].phase.entry.Update?
    case TakeMarker(g) => WorkerIn(s, g) && s.workers[g].phase.Processing? && !s.workers[g].phase.entry.Update?
    case SendAck(g) => WorkerIn(s, g) && s.workers[g].phase.Acking?
    case Leave(g) => WorkerIn(s, g) && s.workers[g].phase.Leaving?
    case Abort(g) => Alive(s, g)
  }

  /** One round of try_send under the map lock, for an update. */
  function SendUpdateStep(s: Proto, id: nat, lastTry: bool): Proto
    requires Wf(s)
  {
    var s := Ensured(s);
    match SendResult(s)
    case Accepted => Accept(s, Update(id))
    case Full => s.(rejecting := s.rejecting + 1)
    case Closed => s.(registered := None, rejecting := if lastTry then s.rejecting + 1 else s.rejecting)
  }

  /** One round of try_send under the map lock, for a flush barrier. */
  function BeginFlushStep(s: Proto, lastTry: bool): Proto
    requires Wf(s)
  {
    var s := Ensured(s);
    match SendResult(s)
    case Accepted =>
      Accept(s, FlushBarrier(|s.flushes|)).(flushes := s.flushes + [Flush(Some(|s.accepted|), Waiting)])
    case Full => s.(flushes := s.flushes + [Flush(None, Bouncing)])
    case Closed =>
      s.(registered := None, flushes := if lastTry then s.flushes + [Flush(None, Bouncing)] else s.flushes)
  }

  function FlushTo(s: Proto, f: nat, stage: Stage): Proto
    requires f < |s.flushes|
  {
    s.(flushes := s.flushes[f := s.flushes[f].(stage := stage)])
  }

  function CleanupTo(s: Proto, c: nat, stage: CleanupStage): Proto
    requires c < |s.cleanups|
  {
    s.(cleanups := s.cleanups[c := s.cleanups[c].(stage := stage)])
  }

  function CleanupSendStep(s: Proto, c: nat): Proto
    requires Enabled(s, CleanupSend(c))
  {
    var g := s.cleanups[c].gen;
    if Registered(s, g) then CleanupTo(Accept(s, CleanupBarrier(c)), c, Awaiting(Some(|s.accepted|)))
    else CleanupTo(Enqueue(s, g, CleanupBarrier(c)), c, Awaiting(None))
  }

  function IdleStep(s: Proto, g: Generation): Proto
    requires Enabled(s, IdleTimeout(g))
  {
    if !Registered(s, g) then SetPhase(s, g, Leaving)
    else if s.workers[g].queue != [] then Dequeue(s, g)
    else SetPhase(s, g, Leaving).(registered := None)
  }

  function AbortStep(s: Proto, g: Generation): Proto
    requires Enabled(s, Abort(g))
  {
    var lost := if Registered(s, g) then LoseAll(Pending(s), g) else [];
    s.(workers := s.workers[g := Worker([], Gone, true)], settled := s.settled + lost)
  }

  function Step(s: Proto, a: Action): Proto
    requires Enabled(s, a)
  {
    match a
    case SendUpdate(id, lastTry) => SendUpdateStep(s, id, lastTry)
    case MarkRejected => s.(marker := true, rejecting := s.rejecting - 1, failures := s.failures + 1)
    case BeginFlush(lastTry) => BeginFlushStep(s, lastTry)
    case ScheduleCleanup(f) =>
      var s := FlushTo(Ensured(s), f, Returned(false));
      s.(cleanups := s.cleanups + [Cleanup(s.registered.value, f, Sending)])
    case FlushReply(f) =>
      (match BarrierFate(s, f).value
       case Acked(failed) => FlushTo(s, f, Returned(!failed))
       case _ => FlushTo(s, f, Returned(false)).(marker := false))
    case FlushTimeout(f) => FlushTo(s, f, Returned(false))
    case CleanupSend(c) => CleanupSendStep(s, c)
    case CleanupClosed(c) => CleanupTo(s, c, Finished).(marker := false)
    case CleanupDone(c) => CleanupTo(s, c, Finished).(marker := false)
    case Receive(g) => Dequeue(s, g)
    case IdleTimeout(g) => IdleStep(s, g)
    case SendersGone(g) => SetPhase(s, g, Leaving)
    case WriteOk(g) => Settle(s, g, s.workers[g].phase.entry, Written)
    case WriteFails(g) =>
      Settle(s, g, s.workers[g].phase.entry, WriteFailed).(marker := true, failures := s.failures + 1)
    case TakeMarker(g) => SetPhase(s, g, Acking(s.workers[g].phase.entry, s.marker)).(marker := false)
    case SendAck(g) => Settle(s, g, s.workers[g].phase.entry, Acked(s.workers[g].phase.failed))
    case Leave(g) =>
      s.(workers := s.workers[g := s.workers[g].(phase := Gone, queue := [])],
         registered := if Registered(s, g) then None else s.registered)
    case Abort(g) => AbortStep(s, g)
  }

  ghost predicate Next(s: Proto, s': Proto) {
    exists a :: Enabled(s, a) && s' == Step(s, a)
  }

  /** State i of the sequence follows from the one before. */
  ghost predicate Linked(ss: seq<Proto>, i: nat)
    requires 0 < i < |ss|
  {
    Next(ss[i - 1], ss[i])
  }

  ghost predicate Run(ss: seq<Proto>) {
    && |ss| > 0 && ss[0] == INIT
    && (forall i :: 0 < i < |ss| ==> Linked(ss, i))
  }
}
