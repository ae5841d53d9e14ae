/**
  The queue operations in the recorder's own imperative form
  (crates/keycompute-db/src/lifecycle.rs, lines 122-327), over the shared state of
  one request.  Every method is a sequence of protocol steps, so the object stays in a
  state that some run of the protocol reaches.
 */
module RequestQueues {
  import opened Common
  import opened IntermediateQueue
  import opened QueueSafety

  datatype SendError = QueueFull | WorkerClosed

  class RequestQueue {
    var registered: Option<Generation>
    var workers: seq<Worker>
    var marker: bool
    var flushes: seq<Flush>
    var cleanups: seq<Cleanup>
    var accepted: seq<Entry>
    var settled: seq<Settled>
    var rejecting: nat
    var failures: nat

    function View(): Proto
      reads this
    {
      Proto(registered, workers, marker, flushes, cleanups, accepted, settled, rejecting, failures)
    }

    /** The object is where some run of the protocol can be. */
    ghost predicate Valid()
      reads this
    {
      Wf(View()) && Reachable(View())
    }

    constructor ()
      ensures View() == INIT && Valid()
    {
      InitIsReachable();
      registered, workers, marker := None, [], false;
      flushes, cleanups, accepted, settled, rejecting, failures := [], [], [], [], 0, 0;
    }

    method Spawn()
      requires registered.None?
      modifies this`registered, this`workers
      ensures Wf(old(View())) ==> View() == Ensured(old(View()))
    {
      registered := Some(|workers|);
      workers := workers + [Worker([], Receiving, false)];
    }

    /** One round under the map lock: look the worker up or spawn it, then try_send. */
    method SendRound(id: nat, lastTry: bool) returns (sent: Sent)
      requires Wf(View())
      modifies this
      ensures View() == SendUpdateStep(old(View()), id, lastTry)
      ensures sent == SendResult(Ensured(old(View())))
    {
      if registered.None? {
        Spawn();
      }
      var g := registered.value;
      if workers[g].phase.Gone? {
        registered := None;
        rejecting := if lastTry then rejecting + 1 else rejecting;
        return Closed;
      }
      if |workers[g].queue| >= CAPACITY {
        rejecting := rejecting + 1;
        return Full;
      }
      workers := workers[g := workers[g].(queue := workers[g].queue + [Update(id)])];
      accepted := accepted + [Update(id)];
      return Accepted;
    }

    /** The same round as a step of the protocol, and what it changes. */
    method SendStep(id: nat, lastTry: bool) returns (sent: Sent)
      requires Valid()
      modifies this
      ensures Valid() && Continues(old(View()), View()) && sent == SendResult(Ensured(old(View())))
      ensures settled == old(settled) && marker == old(marker) && failures == old(failures)
      ensures accepted == if sent.Accepted? then old(accepted) + [Update(id)] else old(accepted)
      ensures sent.Closed? ==> registered.None? && old(registered).Some?
      ensures sent.Full? ==> registered.Some? && registered == old(registered)
      ensures rejecting == old(rejecting) + if sent.Full? || (sent.Closed? && lastTry) then 1 else 0
    {
      StepIsReachable(View(), SendUpdate(id, lastTry));
      StepContinues(View(), SendUpdate(id, lastTry));
      sent := SendRound(id, lastTry);
    }

    /** The first round of a send settles it: there is no worker yet, or its channel is open. */
    predicate OpenForSending()
      requires Wf(View())
      reads this
    {
      registered.None? || !SendResult(View()).Closed?
    }

    /**
      try_send_intermediate: at most two rounds, each under the map lock.  A worker that
      was killed costs a round, and the others may run before the next one.
     */
    method TrySend(id: nat) returns (r: Result<(), SendError>)
      requires Valid()
      modifies this
      ensures Valid() && Continues(old(View()), View())
      ensures r.Ok? ==> |accepted| > |old(accepted)| && accepted[|accepted| - 1] == Update(id)
      ensures r.Err? ==> rejecting > 0
      // After a killed worker the update is refused only if others spawned another one meanwhile.
      ensures r.Err? && !old(OpenForSending()) ==> |workers| > |old(workers)|
      ensures old(OpenForSending()) ==> (r.Err? <==> old(registered).Some? && SendResult(old(View())).Full?)
      ensures old(OpenForSending()) && r.Ok? ==>
                accepted == old(accepted) + [Update(id)] && rejecting == old(rejecting)
      ensures old(OpenForSending()) && r.Err? ==>
                r == Err(QueueFull) && accepted == old(accepted) && rejecting == old(rejecting) + 1
      ensures old(OpenForSending()) ==> settled == old(settled) && marker == old(marker) && failures == old(failures)
    {
      for round := 0 to 2
        invariant Valid() && Continues(old(View()), View())
        invariant round == 0 ==> View() == old(View())
        invariant round == 1 ==> !old(OpenForSending()) && (registered.Some? ==> registered.value >= |old(workers)|)
        invariant round == 2 ==> rejecting > 0 && !old(OpenForSending()) && |workers| > |old(workers)|
      {
        var sent := SendStep(id, round == 1);
        if sent.Accepted? {
          return Ok(());
        }
        if sent.Full? {
          return Err(QueueFull);
        }
        if round == 0 {
          OthersRun(None, None, 0);
        }
      }
      return Err(WorkerClosed);
    }

    /** enqueue_intermediate: a refused update leaves its marker. */
    method EnqueueIntermediate(id: nat) returns (r: Result<(), SendError>)
      requires Valid()
      modifies this
      ensures Valid() && Continues(old(View()), View())
      ensures r.Ok? ==> |accepted| > |old(accepted)| && accepted[|accepted| - 1] == Update(id)
      ensures r.Err? ==> marker && failures > old(failures)
    {
      r := TrySend(id);
      if r.Err? {
        OthersRun(None, None, 1);
        StepIsReachable(View(), MarkRejected);
        marker := true;
        rejecting := rejecting - 1;
        failures := failures + 1;
      }
    }

    /**
      Everything the rest of the system may do while one call or worker waits, short of
      acting for it; `mine` refused updates are the caller's to mark.
     */
    method OthersRun(flush: Option<nat>, worker: Option<Generation>, mine: nat)
      requires Valid() && mine <= rejecting
      requires flush.Some? ==> flush.value < |flushes|
      requires worker.Some? ==> worker.value < |workers|
      modifies this
      ensures Valid() && Continues(old(View()), View()) && mine <= rejecting
      ensures flush.Some? ==> flushes[flush.value] == old(flushes)[flush.value]
      ensures worker.Some? ==> workers[worker.value].phase == old(workers)[worker.value].phase
      ensures worker.Some? && InFlight(old(workers)[worker.value].phase) != [] ==> settled == old(settled)
    {
      var steps: nat :| 0 <= steps;
      while steps > 0
        invariant Valid() && Continues(old(View()), View()) && mine <= rejecting
        invariant flush.Some? ==> flushes[flush.value] == old(flushes)[flush.value]
        invariant worker.Some? ==> workers[worker.value].phase == old(workers)[worker.value].phase
        invariant worker.Some? && InFlight(old(workers)[worker.value].phase) != [] ==> settled == old(settled)
      {
        OtherStep(flush, worker, mine);
        steps := steps - 1;
      }
    }

    method OtherStep(flush: Option<nat>, worker: Option<Generation>, mine: nat)
      requires Valid() && mine <= rejecting
      requires flush.Some? ==> flush.value < |flushes|
      requires worker.Some? ==> worker.value < |workers|
      modifies this
      ensures Valid() && Continues(old(View()), View()) && mine <= rejecting
      ensures flush.Some? ==> flushes[flush.value] == old(flushes)[flush.value]
      ensures worker.Some? ==> workers[worker.value].phase == old(workers)[worker.value].phase
      ensures worker.Some? && InFlight(old(workers)[worker.value].phase) != [] ==> settled == old(settled)
    {
      assert Foreign(SendUpdate(0, false), flush, worker);
      var a: Action :| Foreign(a, flush, worker);
      if Enabled(View(), a) && (a.MarkRejected? ==> rejecting > mine) {
        StepIsReachable(View(), a);
        StepContinues(View(), a);
        ForeignStepsAside(View(), a, flush, worker);
        OthersLeaveRejected(View(), a);
        if worker.Some? && InFlight(workers[worker.value].phase) != [] {
          OnlyHolderSettles(View(), a, worker.value);
        }
        Become(Step(View(), a));
      }
    }

    method Become(s: Proto)
      modifies this
      ensures View() == s
    {
      registered, workers, marker := s.registered, s.workers, s.marker;
      flushes, cleanups, accepted := s.flushes, s.cleanups, s.accepted;
      settled, rejecting, failures := s.settled, s.rejecting, s.failures;
    }

    method FlushRound(lastTry: bool) returns (sent: Sent)
      requires Wf(View())
      modifies this
      ensures View() == BeginFlushStep(old(View()), lastTry)
      ensures sent == SendResult(Ensured(old(View())))
    {
      if registered.None? {
        Spawn();
      }
      var g := registered.value;
      if workers[g].phase.Gone? {
        registered := None;
        flushes := if lastTry then flushes + [Flush(None, Bouncing)] else flushes;
        return Closed;
      }
      if |workers[g].queue| >= CAPACITY {
        flushes := flushes + [Flush(None, Bouncing)];
        return Full;
      }
      var barrier := FlushBarrier(|flushes|);
      workers := workers[g := workers[g].(queue := workers[g].queue + [barrier])];
      flushes := flushes + [Flush(Some(|accepted|), Waiting)];
      accepted := accepted + [barrier];
      return Accepted;
    }

    /** The same round as a step of the protocol, and what it changes. */
    method FlushStep(lastTry: bool) returns (sent: Sent)
      requires Valid()
      modifies this
      ensures Valid() && Continues(old(View()), View())
      ensures flushes == old(flushes) + if sent.Accepted? then [Flush(Some(|old(accepted)|), Waiting)]
                                        else if sent.Full? || lastTry then [Flush(None, Bouncing)] else []
      ensures sent == SendResult(Ensured(old(View())))
      ensures sent.Closed? ==> registered.None? && old(registered).Some?
      ensures sent.Full? ==> registered.Some? && registered == old(registered)
    {
      StepIsReachable(View(), IntermediateQueue.BeginFlush(lastTry));
      StepContinues(View(), IntermediateQueue.BeginFlush(lastTry));
      sent := FlushRound(lastTry);
    }

    /** schedule_intermediate_cleanup, up to the spawn of the detached task. */
    method ScheduleCleanup(f: nat)
      requires Valid() && f < |flushes| && flushes[f].stage.Bouncing?
      modifies this
      ensures Valid() && View() == Step(old(View()), IntermediateQueue.ScheduleCleanup(f))
    {
      StepIsReachable(View(), IntermediateQueue.ScheduleCleanup(f));
      if registered.None? {
        Spawn();
      }
      flushes := flushes[f := flushes[f].(stage := Returned(false))];
      cleanups := cleanups + [Cleanup(registered.value, f, Sending)];
    }

    /**
      flush_intermediate_queue.  Ok means that everything accepted before the call is
      settled, and that no failed write among it goes unreported.
     */
    method FlushIntermediateQueue() returns (ok: bool, f: nat)
      requires Valid()
      modifies this
      ensures Valid() && |old(flushes)| <= f < |flushes| && flushes[f].stage == Returned(ok)
      ensures old(accepted) <= accepted && old(settled) <= settled
      ensures ok ==> |old(accepted)| < |settled| && forall q :: 0 <= q < |old(accepted)| ==> settled[q].entry == old(accepted)[q]
      ensures ok && FailedBefore(View(), |old(accepted)|) ==> Reported(View())
      // A flush whose barrier was refused leaves a cleanup behind.
      ensures flushes[f].pos.None? ==> exists c :: 0 <= c < |cleanups| && cleanups[c].flush == f
    {
      var sent;
      sent, f := BeginFlush();
      OthersRun(Some(f), None, 0);
      if !sent {
        ScheduleCleanup(f);
        assert cleanups[|cleanups| - 1].flush == f;
        return false, f;
      }
      ok := AwaitBarrier(f);
      if ok {
        OkFlushDrained(View(), f);
      }
    }

    method BeginFlush() returns (sent: bool, f: nat)
      requires Valid()
      modifies this
      ensures Valid() && Continues(old(View()), View()) && |old(flushes)| <= f < |flushes|
      ensures if sent then flushes[f].stage.Waiting? && flushes[f].pos.Some? && |old(accepted)| <= flushes[f].pos.value
              else flushes[f] == Flush(None, Bouncing)
      // The barrier bounces only off a full channel, or off another worker after a killed one.
      ensures old(OpenForSending()) ==> (!sent <==> old(registered).Some? && SendResult(old(View())).Full?)
      ensures !sent && !old(OpenForSending()) ==> |workers| > |old(workers)|
    {
      for round := 0 to 2
        invariant Valid() && Continues(old(View()), View())
        invariant round == 0 ==> View() == old(View())
        invariant round == 1 ==> !old(OpenForSending()) && (registered.Some? ==> registered.value >= |old(workers)|)
        invariant round == 2 ==> |flushes| > |old(flushes)| && flushes[|flushes| - 1] == Flush(None, Bouncing)
        invariant round == 2 ==> !old(OpenForSending()) && |workers| > |old(workers)|
      {
        f := |flushes|;
        var r := FlushStep(round == 1);
        if !r.Closed? {
          return r.Accepted?, f;
        }
        if round == 0 {
          OthersRun(None, None, 0);
        }
      }
      return false, |flushes| - 1;
    }

    /** The bounded wait for the barrier's answer; a closed channel also takes the marker. */
    method AwaitBarrier(f: nat) returns (ok: bool)
      requires Valid() && f < |flushes| && flushes[f].stage.Waiting?
      modifies this
      ensures Valid() && |flushes| == |old(flushes)| && flushes[f] == old(flushes)[f].(stage := Returned(ok))
      ensures accepted == old(accepted) && settled == old(settled)
      ensures ok <==> BarrierFate(old(View()), f) == Some(Acked(false))
    {
      var fate := BarrierFate(View(), f);
      ok := fate == Some(Acked(false));
      if fate.None? {
        StepIsReachable(View(), FlushTimeout(f));
      } else {
        StepIsReachable(View(), FlushReply(f));
        if !fate.value.Acked? {
          marker := false;
        }
      }
      flushes := flushes[f := flushes[f].(stage := Returned(ok))];
    }

    /**
      One turn of run_intermediate_worker.  `idle` tells that the receive timed out,
      `written` how the database answered.  The worker stops exactly if it is idle with an
      empty channel, and then unregisters.
     */
    method WorkerTurn(g: Generation, idle: bool, written: bool) returns (again: bool)
      requires Valid() && g < |workers| && workers[g].phase.Receiving?
      modifies this
      ensures Valid() && old(accepted) <= accepted && old(settled) <= settled
      ensures !again ==> |settled| == |accepted| && accepted == old(accepted) && !Registered(View(), g)
      ensures old(workers)[g].queue != [] ==>
                again && |settled| > |old(settled)| && settled[|old(settled)|].entry == old(workers)[g].queue[0]
      ensures old(workers)[g].queue != [] ==>
                var fate := settled[|old(settled)|].fate;
                if old(workers)[g].queue[0].Update? then fate == (if written then Written else WriteFailed) else fate.Acked?
      ensures old(workers)[g].queue == [] ==> again == !idle
      ensures old(workers)[g].queue == [] && !idle ==> View() == old(View())
      ensures old(workers)[g].queue == [] && idle ==>
                registered.None? && g < |workers| && workers[g].phase.Gone? && marker == old(marker) && settled == old(settled)
    {
      ReceivingWorker(View(), g);
      if workers[g].queue == [] {
        if idle {
          Retire(g);
        }
        return !idle;
      }
      StepIsReachable(View(), Receive(g));
      workers := workers[g := workers[g].(queue := workers[g].queue[1..], phase := Processing(workers[g].queue[0]))];
      OthersRun(None, Some(g), 0);
      ProcessIntermediateUpdate(g, written);
      return true;
    }

    /** The locked branch of an idle timeout with an empty channel, and the way out. */
    method Retire(g: Generation)
      requires Valid() && g < |workers| && workers[g].phase.Receiving? && workers[g].queue == [] && Registered(View(), g)
      modifies this
      ensures Valid() && accepted == old(accepted) && settled == old(settled) && registered.None?
      ensures marker == old(marker) && g < |workers| && workers[g].phase.Gone?
    {
      StepIsReachable(View(), IdleTimeout(g));
      registered := None;
      workers := workers[g := workers[g].(phase := Leaving)];
      StepIsReachable(View(), Leave(g));
      workers := workers[g := workers[g].(phase := Gone, queue := [])];
    }

    /**
      process_intermediate_update: write and mark a failure, or take the marker and answer
      what it was, with others at work between the two.
     */
    method ProcessIntermediateUpdate(g: Generation, written: bool)
      requires Valid() && g < |workers| && workers[g].phase.Processing?
      modifies this
      ensures Valid() && Continues(old(View()), View())
      ensures |settled| == |old(settled)| + 1
      ensures settled[|old(settled)|].entry == old(workers)[g].phase.entry
      ensures settled[|old(settled)|].fate == if !old(workers)[g].phase.entry.Update? then Acked(old(marker))
                                              else if written then Written else WriteFailed
      ensures old(workers)[g].phase.entry.Update? && !written ==> marker && failures == old(failures) + 1
    {
      if workers[g].phase.entry.Update? {
        StepIsReachable(View(), if written then WriteOk(g) else WriteFails(g));
        StepContinues(View(), if written then WriteOk(g) else WriteFails(g));
        ApplyUpdate(g, written);
      } else {
        TakeFailure(g);
        OthersRun(None, Some(g), 0);
        AnswerBarrier(g);
      }
    }

    /** take_intermediate_failure, by the worker that is at a barrier. */
    method TakeFailure(g: Generation)
      requires Valid() && g < |workers| && workers[g].phase.Processing? && !workers[g].phase.entry.Update?
      modifies this
      ensures Valid() && Continues(old(View()), View()) && settled == old(settled) && !marker && g < |workers|
      ensures workers[g].phase == Acking(old(workers)[g].phase.entry, old(marker))
    {
      StepIsReachable(View(), TakeMarker(g));
      StepContinues(View(), TakeMarker(g));
      workers := workers[g := workers[g].(phase := Acking(workers[g].phase.entry, marker))];
      marker := false;
    }

    method ApplyUpdate(g: Generation, written: bool)
      requires Wf(View()) && g < |workers| && workers[g].phase.Processing? && workers[g].phase.entry.Update?
      modifies this
      ensures View() == Step(old(View()), if written then WriteOk(g) else WriteFails(g))
    {
      var e := workers[g].phase.entry;
      if !written {
        marker := true;
        failures := failures + 1;
      }
      settled := settled + [Settled(e, if written then Written else WriteFailed, g)];
      workers := workers[g := workers[g].(phase := Receiving)];
    }

    method AnswerBarrier(g: Generation)
      requires Valid() && g < |workers| && workers[g].phase.Acking?
      modifies this
      ensures Valid() && Continues(old(View()), View())
      ensures settled == old(settled) + [Settled(old(workers)[g].phase.entry, Acked(old(workers)[g].phase.failed), g)]
    {
      StepIsReachable(View(), SendAck(g));
      StepContinues(View(), SendAck(g));
      settled := settled + [Settled(workers[g].phase.entry, Acked(workers[g].phase.failed), g)];
      workers := workers[g := workers[g].(phase := Receiving)];
    }
  }

  /** An action of somebody other than the given flush and worker. */
  predicate Foreign(a: Action, flush: Option<nat>, worker: Option<Generation>) {
    && (a.ScheduleCleanup? || a.FlushReply? || a.FlushTimeout? ==> Some(a.f) != flush)
    && (IsWorkerAction(a) ==> Some(a.g) != worker)
  }

  lemma ForeignStepsAside(s: Proto, a: Action, flush: Option<nat>, worker: Option<Generation>)
    requires Enabled(s, a) && Foreign(a, flush, worker)
    ensures flush.Some? && flush.value < |s.flushes| ==> Step(s, a).flushes[flush.value] == s.flushes[flush.value]
    ensures worker.Some? && worker.value < |s.workers| ==> Step(s, a).workers[worker.value].phase == s.workers[worker.value].phase
  {
    if flush.Some? && flush.value < |s.flushes| {
      StageMoves(s, a, flush.value);
    }
    if worker.Some? {
      ForeignPhase(s, a, worker.value);
    }
  }

  lemma ForeignPhase(s: Proto, a: Action, g: Generation)
    requires Enabled(s, a) && (IsWorkerAction(a) ==> a.g != g)
    ensures g < |s.workers| ==> Step(s, a).workers[g].phase == s.workers[g].phase
  {
  }

  lemma OthersLeaveRejected(s: Proto, a: Action)
    requires Enabled(s, a)
    ensures Step(s, a).rejecting >= s.rejecting - if a.MarkRejected? then 1 else 0
  {
  }

  /** A worker at its channel is the registered one, and its channel holds all that is unsettled. */
  lemma ReceivingWorker(s: Proto, g: Generation)
    requires Reachable(s) && g < |s.workers| && s.workers[g].phase.Receiving?
    ensures Registered(s, g) && |s.settled| + |s.workers[g].queue| == |s.accepted|
  {
    ReachableIsSafe(s);
    assert WorkerOk(s, g);
  }

  /** While a worker has an entry in hand, nobody else settles anything. */
  lemma OnlyHolderSettles(s: Proto, a: Action, g: Generation)
    requires Reachable(s) && Enabled(s, a) && g < |s.workers| && InFlight(s.workers[g].phase) != []
    requires IsWorkerAction(a) ==> a.g != g
    ensures Step(s, a).settled == s.settled
  {
    ReachableIsSafe(s);
    assert WorkerOk(s, g);
    if IsWorkerAction(a) {
      assert WorkerOk(s, a.g);
    }
  }

  /** History only grows: positions, fates, answers and returned flushes stay. */
  predicate Continues(s: Proto, s': Proto) {
    && s.accepted <= s'.accepted && s.settled <= s'.settled && s.failures <= s'.failures
    && |s.workers| <= |s'.workers| && |s.flushes| <= |s'.flushes|
    && (s'.registered.Some? && s'.registered != s.registered ==> s'.registered.value >= |s.workers|)
  }

  lemma StepContinues(s: Proto, a: Action)
    requires Enabled(s, a)
    ensures Continues(s, Step(s, a))
  {
    StepOnlyAppends(s, a);
    OnlySpawnRegisters(s, a);
  }

  /** A worker is registered only when it is spawned. */
  lemma OnlySpawnRegisters(s: Proto, a: Action)
    requires Enabled(s, a)
    ensures var s' := Step(s, a);
            s'.registered == s.registered || s'.registered.None? || s'.registered.value >= |s.workers|
  {
  }

  lemma OkFlushDrained(s: Proto, f: nat)
    requires Reachable(s) && f < |s.flushes| && s.flushes[f].stage == Returned(true)
    ensures Wf(s) && s.flushes[f].pos.Some? && s.flushes[f].pos.value < |s.settled|
    ensures |s.settled| <= |s.accepted| && forall q :: 0 <= q < |s.settled| ==> s.settled[q].entry == s.accepted[q]
    ensures FailedBefore(s, s.flushes[f].pos.value) ==> Reported(s)
  {
    ReachableIsSafe(s);
    assert FlushOk(s, f);
  }
}
