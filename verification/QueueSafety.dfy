/** What every interleaving of the intermediate queue keeps. */
module QueueSafety {
  import opened Common
  import opened IntermediateQueue

  predicate Working(phase: Phase) {
    phase.Receiving? || phase.Processing? || phase.Acking?
  }

  predicate OnlyCleanup(es: seq<Entry>) {
    forall i :: 0 <= i < |es| ==> es[i].CleanupBarrier?
  }

  predicate WorkerOk(s: Proto, g: Generation)
    requires g < |s.workers|
  {
    var w := s.workers[g];
    && |w.queue| <= CAPACITY
    && (Working(w.phase) ==> Registered(s, g))
    && (w.phase.Leaving? ==> !Registered(s, g) && OnlyCleanup(w.queue))
    && (w.phase.Gone? ==> w.queue == [] && (Registered(s, g) ==> w.aborted))
    && (w.phase.Acking? ==> !w.phase.entry.Update?)
    && (w.aborted ==> w.phase.Gone?)
  }

  /** Workers that can process are registered, so there is at most one of them. */
  predicate Structure(s: Proto) {
    && Wf(s)
    && forall g :: 0 <= g < |s.workers| ==> WorkerOk(s, g)
  }

  /** What was accepted is what was settled followed by what the registered worker has. */
  predicate Order(s: Proto)
    requires Wf(s)
  {
    && |s.settled| + |Pending(s)| == |s.accepted|
    && (forall i :: 0 <= i < |s.settled| ==> s.settled[i].entry == s.accepted[i])
    && s.accepted[|s.settled|..] == Pending(s)
  }

  lemma AllWorkersOk(s: Proto, s': Proto, touched: Generation)
    requires Structure(s) && Wf(s') && |s.workers| <= |s'.workers|
    requires forall g :: 0 <= g < |s.workers| && g != touched ==> s'.workers[g] == s.workers[g]
    requires forall g :: |s.workers| <= g < |s'.workers| ==> WorkerOk(s', g)
    requires touched < |s.workers| ==> WorkerOk(s', touched)
    requires s'.registered == s.registered || s.registered == Some(touched)
          || (s.registered.None? && s'.registered == Some(|s.workers|))
    requires s'.registered.Some? && s'.registered != s.registered ==> s'.registered.value >= |s.workers|
    ensures Structure(s')
  {
    forall g | 0 <= g < |s'.workers|
      ensures WorkerOk(s', g)
    {
      if g < |s.workers| && g != touched {
        assert WorkerOk(s, g);
      }
    }
  }

  lemma EnsuredKeepsStructure(s: Proto)
    requires Structure(s)
    ensures Structure(Ensured(s)) && WorkerOk(Ensured(s), Ensured(s).registered.value)
  {
    if s.registered.None? {
      AllWorkersOk(s, Ensured(s), |s.workers|);
    } else {
      assert WorkerOk(s, s.registered.value);
    }
  }

  lemma EnqueueKeepsStructure(s: Proto, s': Proto, g: Generation, e: Entry)
    requires Structure(s) && Alive(s, g) && |s.workers[g].queue| < CAPACITY
    requires Registered(s, g) || e.CleanupBarrier?
    requires s'.workers == Enqueue(s, g, e).workers && s'.registered == s.registered && Wf(s')
    ensures Structure(s')
  {
    assert WorkerOk(s, g);
    AllWorkersOk(s, s', g);
  }

  lemma SameWorkersKeepStructure(s: Proto, s': Proto)
    requires Structure(s) && s'.workers == s.workers && Wf(s')
    requires s'.registered == s.registered || (s'.registered.None? && s.registered.Some? && s.workers[s.registered.value].phase.Gone?)
    ensures Structure(s')
  {
    AllWorkersOk(s, s', if s.registered.Some? then s.registered.value else |s.workers|) by {
      assert s.registered.Some? ==> WorkerOk(s, s.registered.value);
    }
  }

  lemma ClientKeepsStructure(s: Proto, a: Action)
    requires Structure(s) && Enabled(s, a)
    requires a.SendUpdate? || a.BeginFlush? || a.ScheduleCleanup? || a.CleanupSend?
    ensures Structure(Step(s, a))
  {
    if a.CleanupSend? {
      EnqueueKeepsStructure(s, Step(s, a), s.cleanups[a.c].gen, CleanupBarrier(a.c));
    } else {
      var e := Ensured(s);
      EnsuredKeepsStructure(s);
      if !a.ScheduleCleanup? && SendResult(e).Accepted? {
        EnqueueKeepsStructure(e, Step(s, a), e.registered.value, if a.SendUpdate? then Update(a.id) else FlushBarrier(|s.flushes|));
      } else {
        SameWorkersKeepStructure(e, Step(s, a));
      }
    }
  }

  predicate IsWorkerAction(a: Action) {
    a.Receive? || a.IdleTimeout? || a.SendersGone? || a.WriteOk? || a.WriteFails? || a.TakeMarker? || a.SendAck?
    || a.Leave? || a.Abort?
  }

  lemma WorkerKeepsStructure(s: Proto, a: Action)
    requires Structure(s) && Enabled(s, a) && IsWorkerAction(a)
    ensures Structure(Step(s, a))
  {
    assert WorkerOk(s, a.g);
    AllWorkersOk(s, Step(s, a), a.g);
  }

  lemma StepKeepsStructure(s: Proto, a: Action)
    requires Structure(s) && Enabled(s, a)
    ensures Structure(Step(s, a))
  {
    if IsWorkerAction(a) {
      WorkerKeepsStructure(s, a);
    } else if a.SendUpdate? || a.BeginFlush? || a.ScheduleCleanup? || a.CleanupSend? {
      ClientKeepsStructure(s, a);
    } else {
      SameWorkersKeepStructure(s, Step(s, a));
    }
  }

  // Each primitive keeps the order on its own.

  lemma EnsuredKeepsOrder(s: Proto)
    requires Wf(s) && Order(s)
    ensures Order(Ensured(s))
  {
  }

  lemma AcceptKeepsOrder(s: Proto, e: Entry)
    requires Wf(s) && Order(s) && s.registered.Some?
    ensures Order(Accept(s, e))
  {
    var s' := Accept(s, e);
    assert Pending(s') == Pending(s) + [e];
    assert s'.accepted[|s'.settled|..] == s.accepted[|s.settled|..] + [e];
  }

  lemma DequeueKeepsOrder(s: Proto, g: Generation)
    requires Wf(s) && Order(s) && Registered(s, g) && s.workers[g].phase.Receiving? && s.workers[g].queue != []
    ensures Order(Dequeue(s, g))
  {
    assert Pending(Dequeue(s, g)) == Pending(s);
  }

  lemma SettleKeepsOrder(s: Proto, g: Generation, fate: Fate)
    requires Wf(s) && Order(s) && Registered(s, g)
    requires s.workers[g].phase.Processing? || s.workers[g].phase.Acking?
    ensures Order(Settle(s, g, s.workers[g].phase.entry, fate))
  {
    var s' := Settle(s, g, s.workers[g].phase.entry, fate);
    assert Pending(s) == [s.workers[g].phase.entry] + Pending(s');
    assert s.accepted[|s.settled|] == s.accepted[|s.settled|..][0];
    assert s'.accepted[|s'.settled|..] == s.accepted[|s.settled|..][1..];
  }

  lemma AbortKeepsOrder(s: Proto, g: Generation)
    requires Wf(s) && Order(s) && Enabled(s, Abort(g))
    ensures Order(AbortStep(s, g))
  {
    var s' := AbortStep(s, g);
    if Registered(s, g) {
      assert Pending(s') == [];
      forall i | |s.settled| <= i < |s'.settled|
        ensures s'.settled[i].entry == s.accepted[i]
      {
        assert s.accepted[i] == s.accepted[|s.settled|..][i - |s.settled|];
      }
    }
  }

  lemma SameChannelKeepsOrder(s: Proto, s': Proto)
    requires Wf(s) && Order(s) && Wf(s') && s'.accepted == s.accepted && s'.settled == s.settled
    requires s'.registered == s.registered
    requires s.registered.Some? ==> s'.workers[s.registered.value] == s.workers[s.registered.value]
    ensures Order(s')
  {
  }

  lemma SendKeepsOrder(s: Proto, a: Action)
    requires Structure(s) && Order(s) && Enabled(s, a) && (a.SendUpdate? || a.BeginFlush?)
    ensures Wf(Step(s, a)) && Order(Step(s, a))
  {
    var e := Ensured(s);
    EnsuredKeepsOrder(s);
    EnsuredKeepsStructure(s);
    AcceptKeepsOrder(e, if a.SendUpdate? then Update(a.id) else FlushBarrier(|s.flushes|));
  }

  lemma WorkerKeepsOrder(s: Proto, a: Action)
    requires Structure(s) && Order(s) && Enabled(s, a) && IsWorkerAction(a)
    ensures Wf(Step(s, a)) && Order(Step(s, a))
  {
    assert WorkerOk(s, a.g);
    match a
    case Receive(g) => DequeueKeepsOrder(s, g);
    case IdleTimeout(g) =>
      if s.workers[g].queue != [] {
        DequeueKeepsOrder(s, g);
      }
    case WriteOk(g) => SettleKeepsOrder(s, g, Written);
    case WriteFails(g) => SettleKeepsOrder(s, g, WriteFailed);
    case SendAck(g) => SettleKeepsOrder(s, g, Acked(s.workers[g].phase.failed));
    case Abort(g) => AbortKeepsOrder(s, g);
    case _ =>
  }

  lemma StepKeepsOrder(s: Proto, a: Action)
    requires Structure(s) && Order(s) && Enabled(s, a)
    ensures Wf(Step(s, a)) && Order(Step(s, a))
  {
    if IsWorkerAction(a) {
      WorkerKeepsOrder(s, a);
    } else if a.SendUpdate? || a.BeginFlush? {
      SendKeepsOrder(s, a);
    } else if a.CleanupSend? {
      CleanupSendKeepsOrder(s, a.c);
    } else {
      QuietActionKeepsOrder(s, a);
    }
  }

  lemma CleanupSendKeepsOrder(s: Proto, c: nat)
    requires Structure(s) && Order(s) && Enabled(s, CleanupSend(c))
    ensures Wf(Step(s, CleanupSend(c))) && Order(Step(s, CleanupSend(c)))
  {
    if Registered(s, s.cleanups[c].gen) {
      AcceptKeepsOrder(s, CleanupBarrier(c));
    } else {
      SameChannelKeepsOrder(s, Step(s, CleanupSend(c)));
    }
  }

  lemma QuietActionKeepsOrder(s: Proto, a: Action)
    requires Structure(s) && Order(s) && Enabled(s, a)
    requires !IsWorkerAction(a) && !a.SendUpdate? && !a.BeginFlush? && !a.CleanupSend?
    ensures Wf(Step(s, a)) && Order(Step(s, a))
  {
    if a.ScheduleCleanup? {
      EnsuredKeepsOrder(s);
    } else {
      SameChannelKeepsOrder(s, Step(s, a));
    }
  }

  // ---- Flushes and fates -------------------------------------------------------

  /** A flush and its barrier name each other, and a clean return has a clean answer. */
  predicate FlushOk(s: Proto, f: nat)
    requires f < |s.flushes|
  {
    var x := s.flushes[f];
    && (x.pos.Some? ==> x.pos.value < |s.accepted| && s.accepted[x.pos.value] == FlushBarrier(f))
    && (x.stage.Waiting? ==> x.pos.Some?)
    && (x.stage.Bouncing? ==> x.pos.None?)
    && (x.stage == Returned(true) ==> BarrierFate(s, f) == Some(Acked(false)))
  }

  predicate BarrierOk(s: Proto, e: Entry, p: nat) {
    match e
    case Update(_) => true
    case FlushBarrier(f) => f < |s.flushes| && s.flushes[f].pos == Some(p)
    case CleanupBarrier(c) => c < |s.cleanups|
  }

  predicate CleanupOk(s: Proto, c: Cleanup) {
    c.flush < |s.flushes| && s.flushes[c.flush].stage == Returned(false)
  }

  predicate SettledOk(s: Proto, x: Settled) {
    && x.worker < |s.workers|
    && match x.fate
       case Written => x.entry.Update?
       case WriteFailed => x.entry.Update? && s.failures > 0
       case Acked(_) => !x.entry.Update?
       case Lost => s.workers[x.worker].aborted
  }

  predicate Bookkeeping(s: Proto) {
    && (forall f :: 0 <= f < |s.flushes| ==> FlushOk(s, f))
    && (forall p :: 0 <= p < |s.accepted| ==> BarrierOk(s, s.accepted[p], p))
    && (forall c :: 0 <= c < |s.cleanups| ==> CleanupOk(s, s.cleanups[c]))
    && (forall i :: 0 <= i < |s.settled| ==> SettledOk(s, s.settled[i]))
  }

  predicate Inv(s: Proto) {
    Structure(s) && Order(s) && Bookkeeping(s)
  }

  /** Nothing recorded is forgotten: positions, fates, answers and failed flushes stay. */
  predicate Remembers(s: Proto, s': Proto) {
    && s.accepted <= s'.accepted && s.settled <= s'.settled && s.failures <= s'.failures
    && |s.workers| <= |s'.workers| && |s.flushes| <= |s'.flushes| && |s.cleanups| <= |s'.cleanups|
    && (forall g :: 0 <= g < |s.workers| && s.workers[g].aborted ==> s'.workers[g].aborted)
    && (forall c :: 0 <= c < |s.cleanups| ==> s'.cleanups[c].flush == s.cleanups[c].flush)
    && (forall f :: 0 <= f < |s.flushes| ==> s'.flushes[f].pos == s.flushes[f].pos)
    && (forall f :: 0 <= f < |s.flushes| && s.flushes[f].stage.Returned? ==> s'.flushes[f].stage == s.flushes[f].stage)
  }

  /** With memory kept, only what changed has to be checked. */
  lemma BooksCarryOver(s: Proto, s': Proto)
    requires Bookkeeping(s) && Remembers(s, s')
    requires forall f :: 0 <= f < |s'.flushes| && (f < |s.flushes| ==> s'.flushes[f] != s.flushes[f]) ==> FlushOk(s', f)
    requires forall p :: |s.accepted| <= p < |s'.accepted| ==> BarrierOk(s', s'.accepted[p], p)
    requires forall c :: |s.cleanups| <= c < |s'.cleanups| ==> CleanupOk(s', s'.cleanups[c])
    requires forall i :: |s.settled| <= i < |s'.settled| ==> SettledOk(s', s'.settled[i])
    ensures Bookkeeping(s')
  {
    forall f | 0 <= f < |s'.flushes|
      ensures FlushOk(s', f)
    {
      if f < |s.flushes| && s'.flushes[f] == s.flushes[f] {
        assert FlushOk(s, f);
      }
    }
    forall p | 0 <= p < |s'.accepted|
      ensures BarrierOk(s', s'.accepted[p], p)
    {
      assert p < |s.accepted| ==> BarrierOk(s, s.accepted[p], p);
    }
    forall c | 0 <= c < |s'.cleanups|
      ensures CleanupOk(s', s'.cleanups[c])
    {
      assert c < |s.cleanups| ==> CleanupOk(s, s.cleanups[c]);
    }
    forall i | 0 <= i < |s'.settled|
      ensures SettledOk(s', s'.settled[i])
    {
      assert i < |s.settled| ==> SettledOk(s, s.settled[i]);
    }
  }

  /** The entry a worker is at is the first unsettled one. */
  lemma InFlightIsNext(s: Proto, g: Generation)
    requires Inv(s) && g < |s.workers| && (s.workers[g].phase.Processing? || s.workers[g].phase.Acking?)
    ensures Registered(s, g) && |s.settled| < |s.accepted| && s.accepted[|s.settled|] == s.workers[g].phase.entry
  {
    assert WorkerOk(s, g);
    assert Pending(s)[0] == s.workers[g].phase.entry;
    assert s.accepted[|s.settled|] == s.accepted[|s.settled|..][0];
  }

  lemma WorkerRemembers(s: Proto, a: Action)
    requires Structure(s) && Enabled(s, a) && IsWorkerAction(a)
    ensures Remembers(s, Step(s, a))
    ensures var s' := Step(s, a); s'.flushes == s.flushes && s'.cleanups == s.cleanups && s'.accepted == s.accepted
  {
    assert WorkerOk(s, a.g);
  }

  lemma WorkerSettles(s: Proto, a: Action, i: nat)
    requires Structure(s) && Enabled(s, a) && IsWorkerAction(a) && |s.settled| <= i < |Step(s, a).settled|
    ensures SettledOk(Step(s, a), Step(s, a).settled[i])
  {
    assert WorkerOk(s, a.g);
  }

  lemma WorkerKeepsBooks(s: Proto, a: Action)
    requires Inv(s) && Enabled(s, a) && IsWorkerAction(a)
    ensures Bookkeeping(Step(s, a))
  {
    WorkerRemembers(s, a);
    forall i | |s.settled| <= i < |Step(s, a).settled|
      ensures SettledOk(Step(s, a), Step(s, a).settled[i])
    {
      WorkerSettles(s, a, i);
    }
    BooksCarryOver(s, Step(s, a));
  }

  lemma EnsuredKeepsBooks(s: Proto)
    requires Inv(s)
    ensures Bookkeeping(Ensured(s)) && |s.settled| <= |s.accepted|
  {
    BooksCarryOver(s, Ensured(s));
  }

  lemma SendUpdateKeepsBooks(s: Proto, id: nat, lastTry: bool)
    requires Inv(s)
    ensures Bookkeeping(SendUpdateStep(s, id, lastTry))
  {
    EnsuredKeepsBooks(s);
    BooksCarryOver(Ensured(s), SendUpdateStep(s, id, lastTry));
  }

  lemma AcceptedFlushKeepsBooks(s: Proto)
    requires Bookkeeping(s) && s.registered.Some? && s.registered.value < |s.workers| && |s.settled| <= |s.accepted|
    ensures var f := |s.flushes|;
            Bookkeeping(Accept(s, FlushBarrier(f)).(flushes := s.flushes + [Flush(Some(|s.accepted|), Waiting)]))
  {
    var s' := Accept(s, FlushBarrier(|s.flushes|)).(flushes := s.flushes + [Flush(Some(|s.accepted|), Waiting)]);
    assert FlushOk(s', |s.flushes|);
    BooksCarryOver(s, s');
  }

  lemma BouncedFlushKeepsBooks(s: Proto, registered: Option<Generation>)
    requires Bookkeeping(s)
    ensures Bookkeeping(s.(registered := registered, flushes := s.flushes + [Flush(None, Bouncing)]))
    ensures Bookkeeping(s.(registered := registered))
  {
    var s' := s.(registered := registered, flushes := s.flushes + [Flush(None, Bouncing)]);
    assert FlushOk(s', |s.flushes|);
    BooksCarryOver(s, s');
    BooksCarryOver(s, s.(registered := registered));
  }

  lemma BeginFlushKeepsBooks(s: Proto, lastTry: bool)
    requires Inv(s)
    ensures Bookkeeping(BeginFlushStep(s, lastTry))
  {
    EnsuredKeepsBooks(s);
    var t := Ensured(s);
    AcceptedFlushKeepsBooks(t);
    BouncedFlushKeepsBooks(t, t.registered);
    BouncedFlushKeepsBooks(t, None);
  }

  lemma ReturnKeepsBooks(s: Proto, f: nat, ok: bool, marker: bool)
    requires Bookkeeping(s) && f < |s.flushes| && !s.flushes[f].stage.Returned?
    requires ok ==> BarrierFate(s, f) == Some(Acked(false))
    ensures Bookkeeping(FlushTo(s, f, Returned(ok)).(marker := marker))
  {
    assert FlushOk(s, f);
    BooksCarryOver(s, FlushTo(s, f, Returned(ok)).(marker := marker));
  }

  lemma ScheduleKeepsBooks(s: Proto, f: nat)
    requires Inv(s) && Enabled(s, ScheduleCleanup(f))
    ensures Bookkeeping(Step(s, ScheduleCleanup(f)))
  {
    EnsuredKeepsBooks(s);
    ReturnKeepsBooks(Ensured(s), f, false, s.marker);
    BooksCarryOver(FlushTo(Ensured(s), f, Returned(false)), Step(s, ScheduleCleanup(f)));
  }

  lemma FlushKeepsBooks(s: Proto, a: Action)
    requires Inv(s) && Enabled(s, a) && (a.ScheduleCleanup? || a.FlushReply? || a.FlushTimeout?)
    ensures Bookkeeping(Step(s, a))
  {
    match a
    case ScheduleCleanup(f) => ScheduleKeepsBooks(s, f);
    case FlushTimeout(f) => ReturnKeepsBooks(s, f, false, s.marker);
    case FlushReply(f) =>
      var fate := BarrierFate(s, f).value;
      ReturnKeepsBooks(s, f, fate == Acked(false), if fate.Acked? then s.marker else false);
  }

  lemma CleanupKeepsBooks(s: Proto, a: Action)
    requires Inv(s) && Enabled(s, a) && (a.CleanupSend? || a.CleanupClosed? || a.CleanupDone?)
    ensures Bookkeeping(Step(s, a))
  {
    BooksCarryOver(s, Step(s, a));
  }

  lemma StepKeepsInv(s: Proto, a: Action)
    requires Inv(s) && Enabled(s, a)
    ensures Inv(Step(s, a))
  {
    StepKeepsStructure(s, a);
    StepKeepsOrder(s, a);
    if IsWorkerAction(a) {
      WorkerKeepsBooks(s, a);
    } else if a.SendUpdate? {
      SendUpdateKeepsBooks(s, a.id, a.lastTry);
    } else if a.BeginFlush? {
      BeginFlushKeepsBooks(s, a.lastTry);
    } else if a.ScheduleCleanup? || a.FlushReply? || a.FlushTimeout? {
      FlushKeepsBooks(s, a);
    } else if a.MarkRejected? {
      BooksCarryOver(s, Step(s, a));
    } else {
      CleanupKeepsBooks(s, a);
    }
  }

  // ---- No failure is silently lost --------------------------------------------

  /** The worker has taken a set marker for this flush's barrier and will report it. */
  predicate TakenFor(s: Proto, f: nat)
    requires Wf(s)
  {
    s.registered.Some? && s.workers[s.registered.value].phase == Acking(FlushBarrier(f), true)
  }

  /** The flush has returned an error, or cannot return anything else. */
  predicate Errs(s: Proto, f: nat)
    requires Wf(s) && f < |s.flushes|
  {
    || s.flushes[f].stage.Bouncing?
    || s.flushes[f].stage == Returned(false)
    || (s.flushes[f].stage.Waiting? && BarrierFate(s, f) in {Some(Acked(true)), Some(Lost)})
    || TakenFor(s, f)
  }

  /** A point in a run to count from: how many flushes, failures and settled entries there were. */
  datatype Base = Base(flushes: nat, failures: nat, settled: nat)

  const START: Base := Base(0, 0, 0)

  function BaseOf(s: Proto): Base {
    Base(|s.flushes|, s.failures, |s.settled|)
  }

  /** Some flush begun since the base errs. */
  predicate ReportedSince(s: Proto, b: Base)
    requires Wf(s)
  {
    exists f :: b.flushes <= f < |s.flushes| && Errs(s, f)
  }

  predicate Reported(s: Proto)
    requires Wf(s)
  {
    ReportedSince(s, START)
  }

  /** The flush that an entry speaks for was begun since the base. */
  predicate TakerIsNew(s: Proto, b: Base, e: Entry) {
    match e
    case Update(_) => true
    case FlushBarrier(f) => f >= b.flushes
    case CleanupBarrier(c) => c < |s.cleanups| && s.cleanups[c].flush >= b.flushes
  }

  /** The flush has its answer, and has only to return it. */
  predicate Acknowledged(s: Proto, f: nat)
    requires f < |s.flushes|
  {
    BarrierFate(s, f).Some? && BarrierFate(s, f).value.Acked?
  }

  /** The registered worker is past taking the marker for the barrier it is at. */
  predicate IsAcking(s: Proto)
    requires Wf(s)
  {
    s.registered.Some? && s.workers[s.registered.value].phase.Acking?
  }

  /** The flush can no longer take the marker by itself. */
  predicate FlushIsSpent(s: Proto, f: nat)
    requires f < |s.flushes|
  {
    s.flushes[f].stage.Returned? || (s.flushes[f].stage.Waiting? && Acknowledged(s, f))
  }

  /** Whatever can still take the marker, waiting call, barrier or cleanup, belongs to a flush begun since. */
  predicate OnlyNewTakers(s: Proto, b: Base)
    requires Wf(s)
  {
    && b.flushes <= |s.flushes|
    && (forall f :: 0 <= f < b.flushes ==> FlushIsSpent(s, f))
    && (forall p :: |s.settled| <= p < |s.accepted| ==> TakerIsNew(s, b, s.accepted[p]) || (p == |s.settled| && IsAcking(s)))
    && (forall c :: 0 <= c < |s.cleanups| ==> s.cleanups[c].stage.Finished? || s.cleanups[c].flush >= b.flushes)
  }

  /** A write that settled since the base and before position n failed. */
  predicate FailedBetween(s: Proto, b: Base, n: nat) {
    exists q :: b.settled <= q < n && q < |s.settled| && s.settled[q].fate.WriteFailed?
  }

  predicate FailedBefore(s: Proto, n: nat) {
    FailedBetween(s, START, n)
  }

  /** The worker found no marker for the barrier it is about to answer. */
  predicate AnsweringClean(s: Proto)
    requires Wf(s)
  {
    s.registered.Some? && var phase := s.workers[s.registered.value].phase; phase.Acking? && !phase.failed
  }

  /** Once anything failed since the base, the marker is set or some flush begun since reports an error. */
  predicate NoSilentLoss(s: Proto, b: Base)
    requires Wf(s)
  {
    && b.failures <= s.failures && b.settled <= |s.settled|
    && (FailedBetween(s, b, |s.settled|) ==> s.failures > b.failures)
    && (s.failures > b.failures ==> s.marker || ReportedSince(s, b))
  }

  /** A clean answer to a barrier means that every failed write before it is reported elsewhere. */
  predicate CleanAnswers(s: Proto, b: Base)
    requires Wf(s)
  {
    && (forall p :: b.settled <= p < |s.settled| && s.settled[p].fate == Acked(false) && FailedBetween(s, b, p) ==> ReportedSince(s, b))
    && (AnsweringClean(s) && FailedBetween(s, b, |s.settled|) ==> ReportedSince(s, b))
  }

  predicate Vouches(s: Proto, b: Base)
    requires Wf(s)
  {
    OnlyNewTakers(s, b) && NoSilentLoss(s, b) && CleanAnswers(s, b)
  }

  lemma TakenForIsUnanswered(s: Proto, f: nat)
    requires Inv(s) && f < |s.flushes| && TakenFor(s, f)
    ensures BarrierFate(s, f).None? && s.flushes[f].pos == Some(|s.settled|)
    ensures s.flushes[f].stage != Returned(true) && !s.flushes[f].stage.Bouncing?
  {
    InFlightIsNext(s, s.registered.value);
    assert BarrierOk(s, s.accepted[|s.settled|], |s.settled|);
    assert FlushOk(s, f);
  }

  lemma WorkersLeaveFlushes(s: Proto, a: Action)
    requires Enabled(s, a) && IsWorkerAction(a)
    ensures Step(s, a).flushes == s.flushes && Step(s, a).accepted == s.accepted && s.settled <= Step(s, a).settled
    ensures Step(s, a).cleanups == s.cleanups && s.failures <= Step(s, a).failures
  {
  }

  lemma ClientsLeaveFates(s: Proto, a: Action)
    requires Enabled(s, a) && !IsWorkerAction(a)
    ensures Step(s, a).settled == s.settled && s.accepted <= Step(s, a).accepted && s.failures <= Step(s, a).failures
  {
  }

  lemma StepOnlyAppends(s: Proto, a: Action)
    requires Enabled(s, a)
    ensures s.accepted <= Step(s, a).accepted && s.settled <= Step(s, a).settled && s.failures <= Step(s, a).failures
  {
    if IsWorkerAction(a) {
      WorkersLeaveFlushes(s, a);
    } else {
      ClientsLeaveFates(s, a);
    }
  }

  lemma StageMoves(s: Proto, a: Action, f: nat)
    requires Enabled(s, a) && f < |s.flushes|
    ensures f < |Step(s, a).flushes| && Step(s, a).flushes[f].pos == s.flushes[f].pos
    ensures Step(s, a).flushes[f].stage != s.flushes[f].stage ==> a in {ScheduleCleanup(f), FlushReply(f), FlushTimeout(f)}
    ensures Step(s, a).flushes[f].stage == s.flushes[f].stage
         || (s.flushes[f].stage.Bouncing? && Step(s, a).flushes[f].stage == Returned(false))
         || (s.flushes[f].stage.Waiting? && Step(s, a).flushes[f].stage.Returned?)
    ensures s.settled <= Step(s, a).settled
  {
    if IsWorkerAction(a) {
      WorkersLeaveFlushes(s, a);
    } else {
      ClientsLeaveFates(s, a);
    }
  }

  /** Only beginning a flush adds one. */
  lemma FlushesAreKept(s: Proto, a: Action)
    requires Enabled(s, a)
    ensures |Step(s, a).flushes| == |s.flushes| + if a.BeginFlush? && |Step(s, a).flushes| > |s.flushes| then 1 else 0
    ensures |Step(s, a).flushes| > |s.flushes| ==> !Step(s, a).flushes[|s.flushes|].stage.Returned?
  {
  }

  lemma SettledErrorIsStable(s: Proto, a: Action, f: nat)
    requires Inv(s) && Enabled(s, a) && f < |s.flushes| && Errs(s, f) && !TakenFor(s, f)
    ensures Wf(Step(s, a)) && f < |Step(s, a).flushes| && Errs(Step(s, a), f)
  {
    StepKeepsStructure(s, a);
    StageMoves(s, a, f);
    assert FlushOk(s, f);
  }

  lemma TakenErrorIsStable(s: Proto, a: Action, f: nat)
    requires Inv(s) && Enabled(s, a) && f < |s.flushes| && TakenFor(s, f)
    ensures Wf(Step(s, a)) && f < |Step(s, a).flushes| && Errs(Step(s, a), f)
  {
    var g := s.registered.value;
    if a == Abort(g) || a == SendAck(g) {
      AnswerErrs(s, a, f);
    } else {
      StepKeepsStructure(s, a);
      StageMoves(s, a, f);
      TakenForIsUnanswered(s, f);
      if a != FlushTimeout(f) {
        HolderKeepsPhase(s, a, g);
      }
    }
  }

  /** The answer, or the death of the worker, makes the flush err. */
  lemma AnswerErrs(s: Proto, a: Action, f: nat)
    requires Inv(s) && Enabled(s, a) && f < |s.flushes| && TakenFor(s, f)
    requires a == Abort(s.registered.value) || a == SendAck(s.registered.value)
    ensures Wf(Step(s, a)) && f < |Step(s, a).flushes| && Errs(Step(s, a), f)
  {
    StepKeepsStructure(s, a);
    WorkersLeaveFlushes(s, a);
    TakenForIsUnanswered(s, f);
    HolderSettles(s, a, s.registered.value);
  }

  /** Answering or being killed settles the entry in hand. */
  lemma HolderSettles(s: Proto, a: Action, g: Generation)
    requires Inv(s) && Enabled(s, a) && g < |s.workers| && s.workers[g].phase.Acking? && (a == Abort(g) || a == SendAck(g))
    ensures |Step(s, a).settled| > |s.settled|
    ensures Step(s, a).settled[|s.settled|].fate == if a.SendAck? then Acked(s.workers[g].phase.failed) else Lost
  {
    assert WorkerOk(s, g);
    if a.Abort? {
      assert Step(s, a).settled[|s.settled|] == Settled(Pending(s)[0], Lost, g);
    }
  }

  /** Only its own actions move a worker that has an entry in hand, or unregister it. */
  lemma HolderKeepsPhase(s: Proto, a: Action, g: Generation)
    requires Structure(s) && Enabled(s, a) && g < |s.workers| && s.workers[g].phase.Acking?
    requires IsWorkerAction(a) ==> a.g != g
    ensures g < |Step(s, a).workers| && Step(s, a).workers[g].phase == s.workers[g].phase
    ensures Step(s, a).registered == s.registered == Some(g)
  {
    assert WorkerOk(s, g);
    if IsWorkerAction(a) {
      assert WorkerOk(s, a.g);
    }
  }

  /** A flush that errs goes on erring until it has returned its error, and after. */
  lemma ErringIsStable(s: Proto, a: Action, f: nat)
    requires Inv(s) && Enabled(s, a) && f < |s.flushes| && Errs(s, f)
    ensures Wf(Step(s, a)) && f < |Step(s, a).flushes| && Errs(Step(s, a), f)
  {
    if TakenFor(s, f) {
      TakenErrorIsStable(s, a, f);
    } else {
      SettledErrorIsStable(s, a, f);
    }
  }

  lemma ReportedIsStable(s: Proto, a: Action, b: Base)
    requires Inv(s) && Enabled(s, a) && ReportedSince(s, b)
    ensures Wf(Step(s, a)) && ReportedSince(Step(s, a), b)
  {
    var f :| b.flushes <= f < |s.flushes| && Errs(s, f);
    ErringIsStable(s, a, f);
  }

  // ---- Who can take the marker ---------------------------------------------------

  /** Only what changed has to be checked: new entries and new or reopened cleanups. */
  lemma NewTakersCarryOver(s: Proto, s': Proto, b: Base)
    requires Wf(s) && Wf(s') && OnlyNewTakers(s, b) && |s.flushes| <= |s'.flushes| && |s.cleanups| <= |s'.cleanups|
    requires s.accepted <= s'.accepted && s.settled <= s'.settled
    requires forall f :: 0 <= f < |s.flushes| && FlushIsSpent(s, f) ==> FlushIsSpent(s', f)
    requires forall c :: 0 <= c < |s.cleanups| ==>
               s'.cleanups[c].flush == s.cleanups[c].flush && (s.cleanups[c].stage.Finished? ==> s'.cleanups[c].stage.Finished?)
    requires forall c :: |s.cleanups| <= c < |s'.cleanups| ==> s'.cleanups[c].flush >= b.flushes
    requires forall p :: |s.accepted| <= p < |s'.accepted| ==> TakerIsNew(s', b, s'.accepted[p])
    requires IsAcking(s) && |s'.settled| == |s.settled| ==> IsAcking(s')
    ensures OnlyNewTakers(s', b)
  {
    forall p | |s'.settled| <= p < |s'.accepted|
      ensures TakerIsNew(s', b, s'.accepted[p]) || (p == |s'.settled| && IsAcking(s'))
    {
      if p < |s.accepted| {
        assert s'.accepted[p] == s.accepted[p];
        assert TakerIsNew(s, b, s.accepted[p]) || (p == |s.settled| && IsAcking(s));
      }
    }
  }

  /** Until it answers, a worker that has taken the marker stays where it is. */
  lemma AckingStays(s: Proto, a: Action)
    requires Inv(s) && Enabled(s, a) && IsAcking(s) && Wf(Step(s, a)) && |Step(s, a).settled| == |s.settled|
    ensures IsAcking(Step(s, a))
  {
    var g := s.registered.value;
    if IsWorkerAction(a) && a.g == g {
      if a.Abort? || a.SendAck? {
        HolderSettles(s, a, g);
      }
    } else {
      HolderKeepsPhase(s, a, g);
    }
  }

  /** A spent flush stays so: what settled stays settled, and what returned stays returned. */
  lemma SpentStays(s: Proto, a: Action, f: nat)
    requires Enabled(s, a) && f < |s.flushes| && FlushIsSpent(s, f)
    ensures f < |Step(s, a).flushes| && FlushIsSpent(Step(s, a), f)
  {
    StageMoves(s, a, f);
  }

  lemma StepKeepsNewTakers(s: Proto, a: Action, b: Base)
    requires Inv(s) && Enabled(s, a) && OnlyNewTakers(s, b)
    ensures Wf(Step(s, a)) && OnlyNewTakers(Step(s, a), b)
  {
    StepKeepsStructure(s, a);
    StepOnlyAppends(s, a);
    NoOldCleanups(s, a, b);
    NoOldEntries(s, a, b);
    forall f | 0 <= f < |s.flushes| && FlushIsSpent(s, f)
      ensures f < |Step(s, a).flushes| && FlushIsSpent(Step(s, a), f)
    {
      SpentStays(s, a, f);
    }
    FlushesAreKept(s, a);
    if IsAcking(s) && |Step(s, a).settled| == |s.settled| {
      AckingStays(s, a);
    }
    NewTakersCarryOver(s, Step(s, a), b);
  }

  /** Cleanups keep their flush and stay finished; a new one belongs to a flush that was bouncing. */
  lemma NoOldCleanups(s: Proto, a: Action, b: Base)
    requires Wf(s) && Enabled(s, a) && OnlyNewTakers(s, b)
    ensures var s' := Step(s, a);
            && |s.cleanups| <= |s'.cleanups|
            && (forall c :: 0 <= c < |s.cleanups| ==>
                  s'.cleanups[c].flush == s.cleanups[c].flush && (s.cleanups[c].stage.Finished? ==> s'.cleanups[c].stage.Finished?))
            && (forall c :: |s.cleanups| <= c < |s'.cleanups| ==> s'.cleanups[c].flush >= b.flushes)
  {
    if IsWorkerAction(a) {
      WorkersLeaveFlushes(s, a);
    } else if a.ScheduleCleanup? {
      assert a.f < b.flushes ==> FlushIsSpent(s, a.f);
    }
  }

  /** What enters the queue speaks for a flush begun since, or is an update. */
  lemma NoOldEntries(s: Proto, a: Action, b: Base)
    requires Wf(s) && Enabled(s, a) && OnlyNewTakers(s, b)
    ensures var s' := Step(s, a);
            forall p :: |s.accepted| <= p < |s'.accepted| ==> TakerIsNew(s', b, s'.accepted[p])
  {
    if IsWorkerAction(a) {
      WorkersLeaveFlushes(s, a);
    }
  }

  /** Whoever clears a set marker answers for it with an erring flush, begun since the base if all takers are. */
  lemma ClearedMarkerIsReported(s: Proto, a: Action, b: Base)
    requires Inv(s) && OnlyNewTakers(s, b) && Enabled(s, a) && s.marker && !Step(s, a).marker
    ensures Wf(Step(s, a)) && ReportedSince(Step(s, a), b)
  {
    var s' := Step(s, a);
    StepKeepsStructure(s, a);
    if a.TakeMarker? {
      TakenMarkerIsReported(s, a.g, b);
    } else if a.FlushReply? {
      assert a.f < b.flushes ==> FlushIsSpent(s, a.f);
      assert Errs(s', a.f);
    } else {
      assert CleanupOk(s, s.cleanups[a.c]);
      assert Errs(s', s.cleanups[a.c].flush);
    }
  }

  lemma TakenMarkerIsReported(s: Proto, g: Generation, b: Base)
    requires Inv(s) && OnlyNewTakers(s, b) && Enabled(s, TakeMarker(g)) && s.marker && Wf(Step(s, TakeMarker(g)))
    ensures ReportedSince(Step(s, TakeMarker(g)), b)
  {
    var s' := Step(s, TakeMarker(g));
    InFlightIsNext(s, g);
    var e := s.workers[g].phase.entry;
    assert BarrierOk(s, s.accepted[|s.settled|], |s.settled|);
    assert TakerIsNew(s, b, s.accepted[|s.settled|]) || IsAcking(s);
    if e.FlushBarrier? {
      assert TakenFor(s', e.flush) && Errs(s', e.flush);
    } else {
      assert CleanupOk(s, s.cleanups[e.cleanup]);
      assert Errs(s', s.cleanups[e.cleanup].flush);
    }
  }

  /** A write settles as failed only with a failure on record. */
  lemma FailuresAreCounted(s: Proto, a: Action, b: Base)
    requires Enabled(s, a) && b.settled <= |s.settled| && b.failures <= s.failures
    requires FailedBetween(s, b, |s.settled|) ==> s.failures > b.failures
    ensures FailedBetween(Step(s, a), b, |Step(s, a).settled|) ==> Step(s, a).failures > b.failures
  {
    var s' := Step(s, a);
    StepOnlyAppends(s, a);
    if FailedBetween(s', b, |s'.settled|) && !a.WriteFails? {
      var q :| b.settled <= q < |s'.settled| && s'.settled[q].fate.WriteFailed?;
      OnlyFailuresFail(s, a, q);
      assert s.settled[q].fate.WriteFailed?;
    }
  }

  lemma OnlyFailuresFail(s: Proto, a: Action, q: nat)
    requires Enabled(s, a) && !a.WriteFails? && q < |Step(s, a).settled| && Step(s, a).settled[q].fate.WriteFailed?
    ensures q < |s.settled| && Step(s, a).settled[q] == s.settled[q]
  {
    if !IsWorkerAction(a) {
      ClientsLeaveFates(s, a);
    }
  }

  lemma StepKeepsNoSilentLoss(s: Proto, a: Action, b: Base)
    requires Inv(s) && OnlyNewTakers(s, b) && NoSilentLoss(s, b) && Enabled(s, a)
    ensures Wf(Step(s, a)) && NoSilentLoss(Step(s, a), b)
  {
    StepKeepsStructure(s, a);
    StepOnlyAppends(s, a);
    FailuresAreCounted(s, a, b);
    if ReportedSince(s, b) {
      ReportedIsStable(s, a, b);
    } else if s.marker && !Step(s, a).marker {
      ClearedMarkerIsReported(s, a, b);
    } else if Step(s, a).failures > s.failures {
      FailureSetsMarker(s, a);
    }
  }

  lemma FailureSetsMarker(s: Proto, a: Action)
    requires Enabled(s, a) && Step(s, a).failures > s.failures
    ensures Step(s, a).marker
  {
  }

  // ---- Clean answers ---------------------------------------------------------------

  /** A barrier's answer comes from the worker that was about to give it. */
  lemma AnswerComesFrom(s: Proto, a: Action, p: nat)
    requires Inv(s) && Enabled(s, a) && |s.settled| <= p < |Step(s, a).settled|
    requires Step(s, a).settled[p].fate == Acked(false)
    ensures AnsweringClean(s) && p == |s.settled|
  {
    if IsWorkerAction(a) {
      assert WorkerOk(s, a.g);
    } else {
      ClientsLeaveFates(s, a);
    }
  }

  /** Before anything is reported, no step answers a barrier cleanly after a failed write. */
  lemma CleanAnswerIsClean(s: Proto, a: Action, b: Base, p: nat)
    requires Inv(s) && CleanAnswers(s, b) && Enabled(s, a) && !ReportedSince(s, b)
    requires b.settled <= p < |Step(s, a).settled| && Step(s, a).settled[p].fate == Acked(false)
    ensures !FailedBetween(Step(s, a), b, p)
  {
    StepOnlyAppends(s, a);
    if p >= |s.settled| {
      AnswerComesFrom(s, a, p);
      assert !FailedBetween(s, b, |s.settled|);
    }
    assert Step(s, a).settled[..p] == s.settled[..p];
    assert !FailedBetween(s, b, p);
  }

  lemma WorkerAnswering(s: Proto, a: Action)
    requires Inv(s) && Enabled(s, a) && IsWorkerAction(a) && Wf(Step(s, a)) && AnsweringClean(Step(s, a))
    ensures Step(s, a).settled == s.settled && (AnsweringClean(s) || !s.marker)
  {
    assert WorkerOk(s, a.g);
  }

  lemma ClientAnswering(s: Proto, a: Action)
    requires Inv(s) && Enabled(s, a) && !IsWorkerAction(a) && Wf(Step(s, a)) && AnsweringClean(Step(s, a))
    ensures AnsweringClean(s)
  {
  }

  lemma CleanTakeIsClean(s: Proto, a: Action, b: Base)
    requires Inv(s) && NoSilentLoss(s, b) && CleanAnswers(s, b) && Enabled(s, a) && !ReportedSince(s, b)
    requires Wf(Step(s, a)) && AnsweringClean(Step(s, a))
    ensures !FailedBetween(Step(s, a), b, |Step(s, a).settled|)
  {
    if IsWorkerAction(a) {
      WorkerAnswering(s, a);
    } else {
      ClientAnswering(s, a);
      ClientsLeaveFates(s, a);
    }
    assert !FailedBetween(s, b, |s.settled|);
  }

  lemma StepKeepsCleanAnswers(s: Proto, a: Action, b: Base)
    requires Inv(s) && NoSilentLoss(s, b) && CleanAnswers(s, b) && Enabled(s, a)
    ensures Wf(Step(s, a)) && CleanAnswers(Step(s, a), b)
  {
    StepKeepsStructure(s, a);
    var s' := Step(s, a);
    if ReportedSince(s, b) {
      ReportedIsStable(s, a, b);
    } else {
      forall p | b.settled <= p < |s'.settled| && s'.settled[p].fate == Acked(false)
        ensures !FailedBetween(s', b, p)
      {
        CleanAnswerIsClean(s, a, b, p);
      }
      if AnsweringClean(s') {
        CleanTakeIsClean(s, a, b);
      }
    }
  }

  lemma StepKeepsVouching(s: Proto, a: Action, b: Base)
    requires Inv(s) && Vouches(s, b) && Enabled(s, a)
    ensures Wf(Step(s, a)) && Vouches(Step(s, a), b)
  {
    StepKeepsNewTakers(s, a, b);
    StepKeepsNoSilentLoss(s, a, b);
    StepKeepsCleanAnswers(s, a, b);
  }

  // ---- Whole runs ----------------------------------------------------------------

  predicate Safe(s: Proto) {
    Inv(s) && Vouches(s, START)
  }

  lemma StepKeepsSafe(s: Proto, a: Action)
    requires Safe(s) && Enabled(s, a)
    ensures Safe(Step(s, a))
  {
    StepKeepsInv(s, a);
    StepKeepsVouching(s, a, START);
  }

  lemma LinkKeepsSafe(ss: seq<Proto>, i: nat)
    requires Run(ss) && 0 < i < |ss| && Safe(ss[i - 1])
    ensures Safe(ss[i])
  {
    assert Linked(ss, i);
    var a :| Enabled(ss[i - 1], a) && ss[i] == Step(ss[i - 1], a);
    StepKeepsSafe(ss[i - 1], a);
  }

  lemma {:induction false} RunIsSafe(ss: seq<Proto>, i: nat)
    requires Run(ss) && i < |ss|
    ensures Safe(ss[i])
  {
    if i > 0 {
      RunIsSafe(ss, i - 1);
      LinkKeepsSafe(ss, i);
    }
  }

  /** Some run of the protocol ends in this state. */
  ghost predicate Reachable(s: Proto) {
    exists ss :: Run(ss) && ss[|ss| - 1] == s
  }

  lemma InitIsReachable()
    ensures Reachable(INIT)
  {
    assert Run([INIT]);
  }

  lemma RunExtends(ss: seq<Proto>, s: Proto)
    requires Run(ss) && Next(ss[|ss| - 1], s)
    ensures Run(ss + [s]) && (ss + [s])[|ss|] == s
  {
    var more := ss + [s];
    forall i | 0 < i < |more|
      ensures Linked(more, i)
    {
      assert i < |ss| ==> Linked(ss, i);
    }
  }

  lemma StepIsReachable(s: Proto, a: Action)
    requires Reachable(s) && Enabled(s, a)
    ensures Reachable(Step(s, a)) && Wf(Step(s, a))
  {
    var ss :| Run(ss) && ss[|ss| - 1] == s;
    assert Next(s, Step(s, a));
    RunExtends(ss, Step(s, a));
    ReachableIsSafe(s);
    StepKeepsStructure(s, a);
  }

  lemma ReachableIsSafe(s: Proto)
    requires Reachable(s)
    ensures Safe(s)
  {
    var ss :| Run(ss) && ss[|ss| - 1] == s;
    RunIsSafe(ss, |ss| - 1);
  }

  /** The entry at position p of the acceptance order got this far. */
  predicate Accounted(s: Proto, p: nat)
    requires Wf(s) && p < |s.accepted|
  {
    if p < |s.settled| then
      && s.settled[p].entry == s.accepted[p] && s.settled[p].worker < |s.workers|
      && (s.settled[p].fate.Lost? ==> s.workers[s.settled[p].worker].aborted)
    else
      && s.registered.Some? && Working(s.workers[s.registered.value].phase)
      && p - |s.settled| < |Pending(s)| && Pending(s)[p - |s.settled|] == s.accepted[p]
  }

  /**
    No accepted update is lost to a retiring worker: in every state of every run each
    accepted entry has been settled in acceptance order, or is held by the live worker
    registered for the request.  Only a worker killed from outside loses entries.
   */
  lemma AcceptedEntriesAreAccounted(ss: seq<Proto>, i: nat, p: nat)
    requires Run(ss) && i < |ss| && p < |ss[i].accepted|
    ensures Wf(ss[i]) && Accounted(ss[i], p)
  {
    RunIsSafe(ss, i);
    var s := ss[i];
    if p < |s.settled| {
      assert SettledOk(s, s.settled[p]);
    } else {
      assert s.accepted[p] == s.accepted[|s.settled|..][p - |s.settled|];
      assert WorkerOk(s, s.registered.value);
    }
  }

  /** Entries keep their place: acceptance order and fates are never rewritten. */
  lemma {:induction false} HistoryOnlyGrows(ss: seq<Proto>, i: nat, j: nat)
    requires Run(ss) && i <= j < |ss|
    ensures ss[i].accepted <= ss[j].accepted && ss[i].settled <= ss[j].settled
  {
    if i < j {
      HistoryOnlyGrows(ss, i, j - 1);
      assert Linked(ss, j);
      var a :| Enabled(ss[j - 1], a) && ss[j] == Step(ss[j - 1], a);
      StepOnlyAppends(ss[j - 1], a);
    }
  }

  /** At most one worker of a request can receive, write or answer at any time. */
  lemma OneWorkerAtATime(ss: seq<Proto>, i: nat, g: Generation, h: Generation)
    requires Run(ss) && i < |ss| && g < |ss[i].workers| && h < |ss[i].workers|
    requires Working(ss[i].workers[g].phase) && Working(ss[i].workers[h].phase)
    ensures g == h && Registered(ss[i], g)
  {
    RunIsSafe(ss, i);
    assert WorkerOk(ss[i], g) && WorkerOk(ss[i], h);
  }

  /** A registered channel is open unless its worker was killed from outside. */
  lemma ClosedChannelMeansAbort(ss: seq<Proto>, i: nat)
    requires Run(ss) && i < |ss| && ss[i].registered.Some?
    ensures ss[i].registered.value < |ss[i].workers|
    ensures SendResult(ss[i]).Closed? <==> ss[i].workers[ss[i].registered.value].aborted
  {
    RunIsSafe(ss, i);
    assert WorkerOk(ss[i], ss[i].registered.value);
  }

  /** An answered barrier has every earlier accepted entry behind it. */
  lemma AnsweredBarrierDrains(ss: seq<Proto>, i: nat, f: nat, p: nat, q: nat)
    requires Run(ss) && i < |ss| && f < |ss[i].flushes| && ss[i].flushes[f].pos == Some(p) && q < p
    requires BarrierFate(ss[i], f).Some? && BarrierFate(ss[i], f).value.Acked?
    ensures p < |ss[i].accepted| && ss[i].accepted[p] == FlushBarrier(f)
    ensures q < |ss[i].settled| && ss[i].settled[q].entry == ss[i].accepted[q]
    ensures ss[i].settled[q].worker < |ss[i].workers|
    ensures ss[i].settled[q].fate.Lost? ==> ss[i].workers[ss[i].settled[q].worker].aborted
  {
    RunIsSafe(ss, i);
    assert FlushOk(ss[i], f);
    assert SettledOk(ss[i], ss[i].settled[q]);
  }

  lemma LinkKeepsReported(ss: seq<Proto>, j: nat)
    requires Run(ss) && 0 < j < |ss| && Inv(ss[j - 1]) && Reported(ss[j - 1])
    ensures Wf(ss[j]) && Reported(ss[j])
  {
    assert Linked(ss, j);
    var a :| Enabled(ss[j - 1], a) && ss[j] == Step(ss[j - 1], a);
    ReportedIsStable(ss[j - 1], a, START);
  }

  lemma {:induction false} ReportedStays(ss: seq<Proto>, i: nat, j: nat)
    requires Run(ss) && i <= j < |ss|
    requires Wf(ss[i]) && Reported(ss[i])
    ensures Wf(ss[j]) && Reported(ss[j])
  {
    if i < j {
      ReportedStays(ss, i, j - 1);
      RunIsSafe(ss, j - 1);
      LinkKeepsReported(ss, j);
    }
  }

  /**
    A failure is never silent: from the first failure on, the marker is set or some
    flush of the request has returned an error or is bound to; and once reported,
    reported for ever.
   */
  lemma FailureIsMarkedOrReported(ss: seq<Proto>, i: nat, j: nat)
    requires Run(ss) && i <= j < |ss| && ss[i].failures > 0
    ensures Wf(ss[i]) && Wf(ss[j])
    ensures ss[i].marker || Reported(ss[i])
    ensures Reported(ss[i]) ==> Reported(ss[j])
  {
    RunIsSafe(ss, i);
    RunIsSafe(ss, j);
    if Reported(ss[i]) {
      ReportedStays(ss, i, j);
    }
  }

  /** A flush that returned Ok vouches for every write before it, unless another flush errs. */
  lemma CleanFlushVouches(ss: seq<Proto>, i: nat, f: nat)
    requires Run(ss) && i < |ss| && f < |ss[i].flushes| && ss[i].flushes[f].stage == Returned(true)
    ensures Wf(ss[i]) && ss[i].flushes[f].pos.Some?
    ensures FailedBefore(ss[i], ss[i].flushes[f].pos.value) ==> Reported(ss[i])
  {
    RunIsSafe(ss, i);
    OkFlushLeansOnReport(ss[i], f);
  }

  lemma OkFlushLeansOnReport(s: Proto, f: nat)
    requires Safe(s) && f < |s.flushes| && s.flushes[f].stage == Returned(true)
    ensures s.flushes[f].pos.Some?
    ensures FailedBefore(s, s.flushes[f].pos.value) ==> Reported(s)
  {
    assert FlushOk(s, f);
  }

  /** When every flush has returned Ok, a request with any failure still carries its marker. */
  lemma AllCleanMeansMarked(ss: seq<Proto>, i: nat)
    requires Run(ss) && i < |ss| && ss[i].failures > 0
    requires forall f :: 0 <= f < |ss[i].flushes| ==> ss[i].flushes[f].stage == Returned(true)
    ensures ss[i].marker
  {
    RunIsSafe(ss, i);
    var s := ss[i];
    if f :| 0 <= f < |s.flushes| && Errs(s, f) {
      TakenForIsUnanswered(s, f);
    }
  }

  // ---- Since a point without leftovers ------------------------------------------------

  /** A flush that may still take the marker: its cleanup is to be scheduled, or its answer may be lost. */
  predicate FlushLeft(s: Proto) {
    exists f :: 0 <= f < |s.flushes| && !FlushIsSpent(s, f)
  }

  predicate CleanupLeft(s: Proto) {
    exists c :: 0 <= c < |s.cleanups| && !s.cleanups[c].stage.Finished?
  }

  /** A barrier in the queue, or in the worker's hands with the marker not taken yet. */
  predicate BarrierLeft(s: Proto)
    requires Wf(s)
  {
    exists p :: |s.settled| <= p < |s.accepted| && !s.accepted[p].Update? && !(p == |s.settled| && IsAcking(s))
  }

  /** Something begun earlier can still take the marker. */
  predicate Leftover(s: Proto)
    requires Wf(s)
  {
    FlushLeft(s) || CleanupLeft(s) || BarrierLeft(s)
  }

  lemma CleanPointVouches(s: Proto)
    requires Inv(s) && !Leftover(s)
    ensures Vouches(s, BaseOf(s))
  {
    forall p | |s.settled| <= p < |s.accepted|
      ensures TakerIsNew(s, BaseOf(s), s.accepted[p]) || (p == |s.settled| && IsAcking(s))
    {
      assert s.accepted[p].Update? || (p == |s.settled| && IsAcking(s));
    }
  }

  lemma LinkKeepsVouching(ss: seq<Proto>, j: nat, b: Base)
    requires Run(ss) && 0 < j < |ss| && Inv(ss[j - 1]) && Vouches(ss[j - 1], b)
    ensures Wf(ss[j]) && Vouches(ss[j], b)
  {
    assert Linked(ss, j);
    var a :| Enabled(ss[j - 1], a) && ss[j] == Step(ss[j - 1], a);
    StepKeepsVouching(ss[j - 1], a, b);
  }

  lemma {:induction false} VouchesSince(ss: seq<Proto>, i: nat, j: nat)
    requires Run(ss) && i <= j < |ss| && Wf(ss[i]) && !Leftover(ss[i])
    ensures Wf(ss[j]) && Vouches(ss[j], BaseOf(ss[i]))
  {
    RunIsSafe(ss, i);
    if i == j {
      CleanPointVouches(ss[i]);
    } else {
      VouchesSince(ss, i, j - 1);
      RunIsSafe(ss, j - 1);
      LinkKeepsVouching(ss, j, BaseOf(ss[i]));
    }
  }

  /** Every flush begun since state i has returned Ok. */
  predicate AllOkSince(s: Proto, n: nat) {
    forall f :: n <= f < |s.flushes| ==> s.flushes[f].stage == Returned(true)
  }

  /**
    From a point without leftovers on, earlier errors count for nothing: every later failure is marked
    or reported by a flush begun since; and flushes that all return Ok vouch that no write
    before their barriers failed since.
   */
  lemma OkFlushVouchesSince(ss: seq<Proto>, i: nat, j: nat)
    requires Run(ss) && i <= j < |ss| && Wf(ss[i]) && !Leftover(ss[i])
    ensures Wf(ss[j])
    ensures ss[j].failures > ss[i].failures ==> ss[j].marker || ReportedSince(ss[j], BaseOf(ss[i]))
    ensures AllOkSince(ss[j], |ss[i].flushes|) ==>
              && (ss[j].failures > ss[i].failures ==> ss[j].marker)
              && forall f :: |ss[i].flushes| <= f < |ss[j].flushes| ==>
                   ss[j].flushes[f].pos.Some? && !FailedBetween(ss[j], BaseOf(ss[i]), ss[j].flushes[f].pos.value)
  {
    VouchesSince(ss, i, j);
    RunIsSafe(ss, j);
    if AllOkSince(ss[j], |ss[i].flushes|) {
      OkFlushesReportNothing(ss[j], BaseOf(ss[i]));
      forall f | |ss[i].flushes| <= f < |ss[j].flushes|
        ensures ss[j].flushes[f].pos.Some? && !FailedBetween(ss[j], BaseOf(ss[i]), ss[j].flushes[f].pos.value)
      {
        OkFlushIsClean(ss[j], BaseOf(ss[i]), f);
      }
    }
  }

  lemma OkFlushesReportNothing(s: Proto, b: Base)
    requires Inv(s) && AllOkSince(s, b.flushes)
    ensures !ReportedSince(s, b)
  {
    if f :| b.flushes <= f < |s.flushes| && Errs(s, f) {
      TakenForIsUnanswered(s, f);
    }
  }

  lemma OkFlushIsClean(s: Proto, b: Base, f: nat)
    requires Inv(s) && CleanAnswers(s, b) && !ReportedSince(s, b) && f < |s.flushes| && s.flushes[f].stage == Returned(true)
    ensures s.flushes[f].pos.Some? && !FailedBetween(s, b, s.flushes[f].pos.value)
  {
    assert FlushOk(s, f);
  }

  // ---- All requests together -------------------------------------------------------

  /** The recorder's shared state: one protocol instance per request, untouched ones absent. */
  type Recorder = map<nat, Proto>

  function Instance(m: Recorder, r: nat): Proto {
    if r in m then m[r] else INIT
  }

  ghost predicate RecorderNext(m: Recorder, m': Recorder) {
    exists r: nat, s': Proto :: Next(Instance(m, r), s') && m' == m[r := s']
  }

  ghost predicate RecorderRun(ms: seq<Recorder>) {
    && |ms| > 0 && ms[0] == map[]
    && forall i :: 0 <= i < |ms| - 1 ==> RecorderNext(ms[i], ms[i + 1])
  }

  /** Interleaving any number of requests changes nothing for each of them. */
  lemma {:induction false} EveryRequestIsSafe(ms: seq<Recorder>, i: nat, r: nat)
    requires RecorderRun(ms) && i < |ms|
    ensures Safe(Instance(ms[i], r))
  {
    if i > 0 {
      EveryRequestIsSafe(ms, i - 1, r);
      assert RecorderNext(ms[i - 1], ms[i]);
      var q: nat, s' :| Next(Instance(ms[i - 1], q), s') && ms[i] == ms[i - 1][q := s'];
      if q == r {
        var a :| Enabled(Instance(ms[i - 1], r), a) && s' == Step(Instance(ms[i - 1], r), a);
        StepKeepsSafe(Instance(ms[i - 1], r), a);
      }
    }
  }
}
