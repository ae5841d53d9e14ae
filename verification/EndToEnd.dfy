/**
  The queue and the trace rows of one request together: every flush is made by a call
  that then writes to the database, knowing how its flush ended
  (crates/keycompute-db/src/lifecycle.rs, lines 565-852).
 */
module EndToEnd {
  import opened Common
  import opened Lifecycle
  import Q = IntermediateQueue
  import QueueSafety
  import LifecycleSafety

  /** Who flushes: an attempt's finish, the handler's finish, or flush_intermediate_updates. */
  datatype Caller = FinishingAttempt(af: AttemptFinish) | FinishingRequest(rf: RequestFinish) | Flushing

  /** What became of the call's transaction; `open` tells whether the request was open when it committed. */
  datatype Outcome = Unwritten | Committed(open: bool) | Refused

  datatype Call = Call(caller: Caller, outcome: Outcome)

  /** `calls` runs parallel to the flushes of the queue. */
  datatype System = System(queue: Q.Proto, db: Db, calls: seq<Call>)

  datatype Event =
    | QueueMoves(a: Q.Action)
    | FlushBegins(lastTry: bool, caller: Caller)
    | WriteBack(f: nat, succeeds: bool)
    | DbMoves(t: LifecycleSafety.Action)

  predicate Concerns(c: Caller, r: RequestId) {
    match c
    case FinishingAttempt(af) => af.request == r
    case FinishingRequest(rf) => rf.request == r
    case Flushing => true
  }

  predicate Can(r: RequestId, s: System, e: Event) {
    match e
    case QueueMoves(a) => Q.Enabled(s.queue, a) && !a.BeginFlush?
    case FlushBegins(lastTry, caller) => Q.Enabled(s.queue, Q.BeginFlush(lastTry)) && Concerns(caller, r)
    case WriteBack(f, _) =>
      f < |s.queue.flushes| && f < |s.calls| && s.queue.flushes[f].stage.Returned? && s.calls[f].outcome.Unwritten?
    case DbMoves(t) => LifecycleSafety.Enabled(s.db, t)
  }

  /** The transaction of a call, told whether its flush failed. */
  function Transaction(r: RequestId, db: Db, caller: Caller, failed: bool): Tx<()> {
    match caller
    case FinishingAttempt(af) => FinishAttempt(db, af, failed)
    case FinishingRequest(rf) => FinishRequest(db, rf, failed)
    case Flushing => if failed then MarkPartial(db, r) else Commit(db, ())
  }

  function WriteBackStep(r: RequestId, s: System, f: nat, succeeds: bool): System
    requires Can(r, s, WriteBack(f, succeeds))
  {
    var tx := Transaction(r, s.db, s.calls[f].caller, !s.queue.flushes[f].stage.ok);
    if succeeds && tx.Commit? then
      s.(db := tx.db, calls := s.calls[f := s.calls[f].(outcome := Committed(Open(s.db, r)))])
    else s.(calls := s.calls[f := s.calls[f].(outcome := Refused)])
  }

  function Happen(r: RequestId, s: System, e: Event): System
    requires Can(r, s, e)
  {
    match e
    case QueueMoves(a) => s.(queue := Q.Step(s.queue, a))
    case FlushBegins(lastTry, caller) =>
      var queue := Q.Step(s.queue, Q.BeginFlush(lastTry));
      s.(queue := queue,
         calls := if |queue.flushes| > |s.queue.flushes| then s.calls + [Call(caller, Unwritten)] else s.calls)
    case WriteBack(f, succeeds) => WriteBackStep(r, s, f, succeeds)
    case DbMoves(t) => s.(db := LifecycleSafety.Step(s.db, t))
  }

  ghost predicate Next(r: RequestId, s: System, s': System) {
    exists e :: Can(r, s, e) && s' == Happen(r, s, e)
  }

  ghost predicate Linked(r: RequestId, ss: seq<System>, i: nat)
    requires 0 < i < |ss|
  {
    Next(r, ss[i - 1], ss[i])
  }

  ghost predicate Run(r: RequestId, ss: seq<System>) {
    && |ss| > 0 && ss[0].queue == Q.INIT && ss[0].calls == [] && ss[0].db.requests == map[]
    && (forall i :: 0 < i < |ss| ==> Linked(r, ss, i))
  }

  /** The call committed in a way that writes a failed flush down. */
  predicate WroteDown(c: Call) {
    c.outcome.Committed? && (c.caller.FinishingRequest? ==> c.outcome.open)
  }

  predicate IsPartial(db: Db, r: RequestId) {
    r in db.requests && db.requests[r].quality.Partial?
  }

  predicate Parallel(s: System, r: RequestId) {
    |s.calls| == |s.queue.flushes| && forall f :: 0 <= f < |s.calls| ==> Concerns(s.calls[f].caller, r)
  }

  predicate FlushFailed(s: System, f: nat) {
    f < |s.queue.flushes| && s.queue.flushes[f].stage == Q.Returned(false)
  }

  /** A flush that returned an error to a call that wrote it down left the trace partial. */
  predicate ErrorsAreWrittenDown(s: System, r: RequestId) {
    forall f :: 0 <= f < |s.calls| && FlushFailed(s, f) && WroteDown(s.calls[f]) ==> IsPartial(s.db, r)
  }

  predicate CommittedAfterReturn(s: System) {
    forall f :: 0 <= f < |s.calls| && f < |s.queue.flushes| && !s.calls[f].outcome.Unwritten? ==>
      s.queue.flushes[f].stage.Returned?
  }

  predicate Inv(s: System, r: RequestId) {
    && QueueSafety.Safe(s.queue) && LifecycleSafety.RequestsOk(s.db)
    && Parallel(s, r) && CommittedAfterReturn(s) && ErrorsAreWrittenDown(s, r)
  }

  lemma PartialStays(db: Db, t: LifecycleSafety.Action, r: RequestId)
    requires LifecycleSafety.RequestsOk(db) && LifecycleSafety.Enabled(db, t)
    ensures LifecycleSafety.RequestsOk(LifecycleSafety.Step(db, t))
    ensures IsPartial(db, r) ==> IsPartial(LifecycleSafety.Step(db, t), r)
  {
    LifecycleSafety.StepKeepsRequests(db, t);
  }

  /** A call's transaction is one of the lifecycle's. */
  function AsAction(r: RequestId, caller: Caller, failed: bool): LifecycleSafety.Action {
    match caller
    case FinishingAttempt(af) => LifecycleSafety.DoFinishAttempt(af, failed)
    case FinishingRequest(rf) => LifecycleSafety.DoFinishRequest(rf, failed)
    case Flushing => if failed then LifecycleSafety.DoMarkPartial(r) else LifecycleSafety.Tick(0)
  }

  lemma TransactionIsAction(r: RequestId, db: Db, caller: Caller, failed: bool)
    ensures LifecycleSafety.Enabled(db, AsAction(r, caller, failed))
    ensures LifecycleSafety.Step(db, AsAction(r, caller, failed))
         == LifecycleSafety.After(db, Transaction(r, db, caller, failed))
  {
  }

  lemma CommitMarks(r: RequestId, db: Db, caller: Caller)
    requires Concerns(caller, r) && Transaction(r, db, caller, true).Commit? && (caller.FinishingRequest? ==> Open(db, r))
    ensures IsPartial(Transaction(r, db, caller, true).db, r)
  {
    if caller.FinishingAttempt? {
      LifecycleSafety.CommittedFinishMeans(db, caller.af, true);
    }
  }

  lemma WriteBackKeepsInv(r: RequestId, s: System, f: nat, succeeds: bool)
    requires Inv(s, r) && Can(r, s, WriteBack(f, succeeds))
    ensures Inv(Happen(r, s, WriteBack(f, succeeds)), r)
  {
    var failed := !s.queue.flushes[f].stage.ok;
    TransactionIsAction(r, s.db, s.calls[f].caller, failed);
    PartialStays(s.db, AsAction(r, s.calls[f].caller, failed), r);
    var tx := Transaction(r, s.db, s.calls[f].caller, failed);
    if failed && tx.Commit? && (s.calls[f].caller.FinishingRequest? ==> Open(s.db, r)) {
      CommitMarks(r, s.db, s.calls[f].caller);
    }
  }

  /** Flushes that returned stay as they are, and new ones have not returned. */
  predicate ReturnsStay(q: Q.Proto, q': Q.Proto) {
    && |q.flushes| <= |q'.flushes|
    && (forall f :: 0 <= f < |q.flushes| ==> q'.flushes[f].stage == q.flushes[f].stage || !q.flushes[f].stage.Returned?)
    && (forall f :: |q.flushes| <= f < |q'.flushes| ==> !q'.flushes[f].stage.Returned?)
  }

  lemma QueueStepKeepsReturns(q: Q.Proto, a: Q.Action)
    requires QueueSafety.Safe(q) && Q.Enabled(q, a)
    ensures QueueSafety.Safe(Q.Step(q, a)) && ReturnsStay(q, Q.Step(q, a))
    ensures |Q.Step(q, a).flushes| == |q.flushes| || (a.BeginFlush? && |Q.Step(q, a).flushes| == |q.flushes| + 1)
  {
    QueueSafety.StepKeepsSafe(q, a);
    QueueSafety.FlushesAreKept(q, a);
    forall f | 0 <= f < |q.flushes|
      ensures Q.Step(q, a).flushes[f].stage == q.flushes[f].stage || !q.flushes[f].stage.Returned?
    {
      QueueSafety.StageMoves(q, a, f);
    }
  }

  /** A move of the queue, with at most one more call that has not written yet. */
  lemma QueueKeepsInv(r: RequestId, s: System, s': System)
    requires Inv(s, r) && s'.db == s.db && QueueSafety.Safe(s'.queue) && ReturnsStay(s.queue, s'.queue)
    requires |s'.calls| == |s'.queue.flushes| && s.calls <= s'.calls
    requires forall f :: |s.calls| <= f < |s'.calls| ==> s'.calls[f].outcome.Unwritten? && Concerns(s'.calls[f].caller, r)
    ensures Inv(s', r)
  {
    forall f | 0 <= f < |s'.calls|
      ensures Concerns(s'.calls[f].caller, r)
      ensures FlushFailed(s', f) && WroteDown(s'.calls[f]) ==> IsPartial(s'.db, r)
    {
      if f < |s.calls| {
        assert s'.calls[f] == s.calls[f];
      }
    }
  }

  lemma EventKeepsInv(r: RequestId, s: System, e: Event)
    requires Inv(s, r) && Can(r, s, e)
    ensures Inv(Happen(r, s, e), r)
  {
    match e
    case QueueMoves(a) =>
      QueueStepKeepsReturns(s.queue, a);
      QueueKeepsInv(r, s, Happen(r, s, e));
    case FlushBegins(lastTry, caller) =>
      QueueStepKeepsReturns(s.queue, Q.BeginFlush(lastTry));
      QueueKeepsInv(r, s, Happen(r, s, e));
    case WriteBack(f, succeeds) => WriteBackKeepsInv(r, s, f, succeeds);
    case DbMoves(t) => PartialStays(s.db, t, r);
  }

  lemma LinkKeepsInv(r: RequestId, ss: seq<System>, i: nat)
    requires Run(r, ss) && 0 < i < |ss| && Inv(ss[i - 1], r)
    ensures Inv(ss[i], r)
  {
    assert Linked(r, ss, i);
    var e :| Can(r, ss[i - 1], e) && ss[i] == Happen(r, ss[i - 1], e);
    EventKeepsInv(r, ss[i - 1], e);
  }

  lemma {:induction false} RunInvariant(r: RequestId, ss: seq<System>, i: nat)
    requires Run(r, ss) && i < |ss|
    ensures Inv(ss[i], r)
  {
    if i > 0 {
      RunInvariant(r, ss, i - 1);
      LinkKeepsInv(r, ss, i);
    }
  }

  /** The flush errs, and no committed call has written that down. */
  predicate ErrsUnwritten(s: System, f: nat)
    requires Q.Wf(s.queue)
  {
    f < |s.queue.flushes| && f < |s.calls| && QueueSafety.Errs(s.queue, f) && !WroteDown(s.calls[f])
  }

  lemma WrittenErrorIsPartial(s: System, r: RequestId, f: nat)
    requires Inv(s, r) && f < |s.queue.flushes| && QueueSafety.Errs(s.queue, f) && WroteDown(s.calls[f])
    ensures IsPartial(s.db, r)
  {
    assert s.queue.flushes[f].stage.Returned?;
    if s.queue.flushes[f].stage != Q.Returned(false) {
      QueueSafety.TakenForIsUnanswered(s.queue, f);
    }
  }

  /**
    From write to trace: in every interleaving, once an intermediate write failed or an
    update was refused, the marker is set, or the trace is partial, or there is an erring
    flush whose call has not got its transaction through.
   */
  lemma LossReachesTheTrace(r: RequestId, ss: seq<System>, i: nat)
    requires Run(r, ss) && i < |ss| && ss[i].queue.failures > 0
    ensures Q.Wf(ss[i].queue)
    ensures ss[i].queue.marker || IsPartial(ss[i].db, r) || exists f :: ErrsUnwritten(ss[i], f)
  {
    RunInvariant(r, ss, i);
    var s := ss[i];
    if !s.queue.marker {
      var f :| 0 <= f < |s.queue.flushes| && QueueSafety.Errs(s.queue, f);
      if WroteDown(s.calls[f]) {
        WrittenErrorIsPartial(s, r, f);
      } else {
        assert ErrsUnwritten(s, f);
      }
    }
  }

  /**
    A failed write, then a flush behind it, then a committed finish of the attempt: the
    trace is partial, unless another call was told of the failure and has not written it down.
   */
  lemma FinishAfterFailedWrite(r: RequestId, ss: seq<System>, i: nat, f: nat)
    requires Run(r, ss) && i < |ss| && f < |ss[i].calls| && ss[i].calls[f].outcome.Committed?
    requires ss[i].calls[f].caller.FinishingAttempt? && f < |ss[i].queue.flushes|
    requires ss[i].queue.flushes[f].pos.Some? ==> QueueSafety.FailedBefore(ss[i].queue, ss[i].queue.flushes[f].pos.value)
    ensures Q.Wf(ss[i].queue)
    ensures IsPartial(ss[i].db, r) || exists g :: g != f && ErrsUnwritten(ss[i], g)
  {
    RunInvariant(r, ss, i);
    var s := ss[i];
    if s.queue.flushes[f].stage == Q.Returned(true) {
      QueueSafety.OkFlushLeansOnReport(s.queue, f);
      var g :| 0 <= g < |s.queue.flushes| && QueueSafety.Errs(s.queue, g);
      if WroteDown(s.calls[g]) {
        WrittenErrorIsPartial(s, r, g);
      } else {
        assert g != f && ErrsUnwritten(s, g);
      }
    }
  }
}
