/**
  Exactly when a failure can go unnoticed by the flushes that come after it
  (crates/keycompute-db/src/lifecycle.rs, lines 173-277).

  From a state in which nothing begun earlier can still take the marker, every later
  failure is marked or reported by a later flush; from every other state some
  continuation loses one.
 */
module QueueLeftovers {
  import opened Common
  import opened IntermediateQueue
  import opened QueueSafety

  ghost predicate IsPath(ss: seq<Proto>) {
    |ss| > 0 && forall i :: 0 < i < |ss| ==> Linked(ss, i)
  }

  /** Some continuation leads from one state to the other. */
  ghost predicate Reaches(s: Proto, t: Proto) {
    exists ss :: IsPath(ss) && ss[0] == s && ss[|ss| - 1] == t
  }

  /** The failures since the base, if any, are marked or reported by a flush begun since. */
  predicate LossShows(s: Proto, b: Base) {
    Wf(s) && (s.failures > b.failures ==> s.marker || ReportedSince(s, b))
  }

  /** If all flushes begun since the base returned Ok, the failures since, if any, are still marked. */
  predicate OkVouches(s: Proto, b: Base) {
    AllOkSince(s, b.flushes) && s.failures > b.failures ==> s.marker
  }

  // ---- Continuations -----------------------------------------------------------------

  lemma ReachesSelf(s: Proto)
    ensures Reaches(s, s)
  {
    assert IsPath([s]);
  }

  lemma PathExtends(ss: seq<Proto>, t: Proto)
    requires IsPath(ss) && Next(ss[|ss| - 1], t)
    ensures IsPath(ss + [t]) && (ss + [t])[0] == ss[0] && (ss + [t])[|ss|] == t
  {
    var more := ss + [t];
    forall i | 0 < i < |more|
      ensures Linked(more, i)
    {
      assert i < |ss| ==> Linked(ss, i);
    }
  }

  lemma ReachesNext(s: Proto, t: Proto, u: Proto)
    requires Reaches(s, t) && Next(t, u)
    ensures Reaches(s, u)
  {
    var ss :| IsPath(ss) && ss[0] == s && ss[|ss| - 1] == t;
    PathExtends(ss, u);
  }

  lemma {:induction false} ReachesAlong(s: Proto, ss: seq<Proto>, i: nat)
    requires IsPath(ss) && Reaches(s, ss[0]) && i < |ss|
    ensures Reaches(s, ss[i])
  {
    if i > 0 {
      ReachesAlong(s, ss, i - 1);
      assert Linked(ss, i);
      ReachesNext(s, ss[i - 1], ss[i]);
    }
  }

  lemma ReachesOn(s: Proto, t: Proto, u: Proto)
    requires Reaches(s, t) && Reaches(t, u)
    ensures Reaches(s, u)
  {
    var ss :| IsPath(ss) && ss[0] == t && ss[|ss| - 1] == u;
    ReachesAlong(s, ss, |ss| - 1);
  }

  lemma Goes(s: Proto, a: Action)
    requires Reachable(s) && Enabled(s, a)
    ensures Reachable(Step(s, a)) && Wf(Step(s, a)) && Reaches(s, Step(s, a))
  {
    StepIsReachable(s, a);
    assert Next(s, Step(s, a));
    ReachesSelf(s);
    ReachesNext(s, s, Step(s, a));
  }

  // ---- Without leftovers ---------------------------------------------------------------

  lemma {:induction false} PathVouches(ss: seq<Proto>, b: Base, i: nat)
    requires IsPath(ss) && i < |ss| && Inv(ss[0]) && Vouches(ss[0], b)
    ensures Inv(ss[i]) && Vouches(ss[i], b)
  {
    if i > 0 {
      PathVouches(ss, b, i - 1);
      LinkVouches(ss, b, i);
    }
  }

  lemma LinkVouches(ss: seq<Proto>, b: Base, i: nat)
    requires IsPath(ss) && 0 < i < |ss| && Inv(ss[i - 1]) && Vouches(ss[i - 1], b)
    ensures Inv(ss[i]) && Vouches(ss[i], b)
  {
    assert Linked(ss, i);
    var a :| Enabled(ss[i - 1], a) && ss[i] == Step(ss[i - 1], a);
    StepKeepsInv(ss[i - 1], a);
    StepKeepsVouching(ss[i - 1], a, b);
  }

  lemma CleanPointShowsLoss(s: Proto, t: Proto)
    requires Reachable(s) && Wf(s) && !Leftover(s) && Reaches(s, t)
    ensures LossShows(t, BaseOf(s)) && OkVouches(t, BaseOf(s))
  {
    var ss :| IsPath(ss) && ss[0] == s && ss[|ss| - 1] == t;
    CleanPathShowsLoss(ss, BaseOf(s));
  }

  lemma CleanPathShowsLoss(ss: seq<Proto>, b: Base)
    requires IsPath(ss) && Reachable(ss[0]) && Wf(ss[0]) && !Leftover(ss[0]) && b == BaseOf(ss[0])
    ensures LossShows(ss[|ss| - 1], b) && OkVouches(ss[|ss| - 1], b)
  {
    ReachableIsSafe(ss[0]);
    CleanPointVouches(ss[0]);
    VouchedPathShowsLoss(ss, b);
  }

  lemma VouchedPathShowsLoss(ss: seq<Proto>, b: Base)
    requires IsPath(ss) && Inv(ss[0]) && Vouches(ss[0], b)
    ensures LossShows(ss[|ss| - 1], b) && OkVouches(ss[|ss| - 1], b)
  {
    PathVouches(ss, b, |ss| - 1);
    VouchedLossShows(ss[|ss| - 1], b);
  }

  lemma VouchedLossShows(t: Proto, b: Base)
    requires Inv(t) && Vouches(t, b)
    ensures LossShows(t, b) && OkVouches(t, b)
  {
    if AllOkSince(t, b.flushes) {
      OkFlushesReportNothing(t, b);
    }
  }

  // ---- Making a failure -------------------------------------------------------------------

  /** No flush or cleanup moves, and what is accepted or settled stays so. */
  predicate Undisturbed(s: Proto, t: Proto) {
    && t.flushes == s.flushes && t.cleanups == s.cleanups && s.settled <= t.settled && s.accepted <= t.accepted
    && |s.workers| <= |t.workers|
  }

  /** Nobody registered is alive any more, and what was pending is lost. */
  lemma Silence(s: Proto) returns (t: Proto)
    requires Reachable(s)
    ensures Reachable(t) && Wf(t) && Reaches(s, t) && Undisturbed(s, t) && t.failures == s.failures && t.marker == s.marker
    ensures t.registered.Some? ==> t.workers[t.registered.value].phase.Gone?
    ensures t.accepted == s.accepted && |t.settled| == |t.accepted|
    ensures forall p :: |s.settled| <= p < |t.settled| ==> t.settled[p].fate.Lost?
  {
    ReachableIsSafe(s);
    t := s;
    ReachesSelf(s);
    if s.registered.Some? {
      var g := s.registered.value;
      assert WorkerOk(s, g);
      if !s.workers[g].phase.Gone? {
        t := Step(s, Abort(g));
        Goes(s, Abort(g));
      }
    }
  }

  /** The closed channel is noticed and its handle removed. */
  lemma Forget(s: Proto) returns (t: Proto)
    requires Reachable(s) && Wf(s) && (s.registered.Some? ==> s.workers[s.registered.value].phase.Gone?)
    ensures Reachable(t) && Wf(t) && Reaches(s, t) && t == s.(registered := None)
  {
    if s.registered.Some? {
      t := Step(s, SendUpdate(0, false));
      Goes(s, SendUpdate(0, false));
    } else {
      t := s;
      ReachesSelf(s);
    }
  }

  /** A new worker is spawned for an update. */
  lemma SendAfresh(s: Proto) returns (t: Proto)
    requires Reachable(s) && Wf(s) && s.registered.None?
    ensures Reachable(t) && Wf(t) && Reaches(s, t)
    ensures t == s.(registered := Some(|s.workers|), workers := s.workers + [Worker([Update(0)], Receiving, false)],
                    accepted := s.accepted + [Update(0)])
  {
    t := Step(s, SendUpdate(0, false));
    Goes(s, SendUpdate(0, false));
    var w := s.workers + [Worker([], Receiving, false)];
    assert w[|s.workers|].queue + [Update(0)] == [Update(0)];
    assert w[|s.workers| := Worker([Update(0)], Receiving, false)] == s.workers + [Worker([Update(0)], Receiving, false)];
  }

  /** The new worker takes the update and fails to write it. */
  lemma FailAfresh(s: Proto, g: Generation) returns (t: Proto)
    requires Reachable(s) && Wf(s) && g < |s.workers| && s.workers[g] == Worker([Update(0)], Receiving, false)
    ensures Reachable(t) && Wf(t) && Reaches(s, t) && Undisturbed(s, t) && t.marker && t.failures == s.failures + 1
    ensures |t.settled| == |s.settled| + 1
  {
    var u := Step(s, Receive(g));
    Goes(s, Receive(g));
    t := Step(u, WriteFails(g));
    Goes(u, WriteFails(g));
    ReachesOn(s, u, t);
  }

  /** From every state a failure is possible that disturbs no flush or cleanup; what was pending is lost. */
  lemma MakeFailure(s: Proto) returns (t: Proto)
    requires Reachable(s)
    ensures Reachable(t) && Wf(t) && Reaches(s, t) && Undisturbed(s, t) && t.marker && t.failures == s.failures + 1
    ensures |s.accepted| <= |t.settled| && forall p :: |s.settled| <= p < |s.accepted| ==> t.settled[p].fate.Lost?
  {
    var s1 := Silence(s);
    var s2 := Forget(s1);
    var s3 := SendAfresh(s2);
    t := FailAfresh(s3, |s2.workers|);
    ReachesOn(s, s1, s2);
    ReachesOn(s, s2, s3);
    ReachesOn(s, s3, t);
  }

  // ---- Taking its marker ------------------------------------------------------------------

  /** The marker is gone, no flush was begun, and no failure was added. */
  predicate Taken(s: Proto, t: Proto) {
    !t.marker && |t.flushes| == |s.flushes| && t.failures == s.failures
  }

  /** A worker dies; its cleanup notices. */
  lemma KillWorker(s: Proto, g: Generation) returns (t: Proto)
    requires Reachable(s) && g < |s.workers|
    ensures Reachable(t) && Wf(t) && Reaches(s, t) && t.flushes == s.flushes && t.cleanups == s.cleanups && t.failures == s.failures
    ensures g < |t.workers| && t.workers[g].phase.Gone?
  {
    ReachableIsSafe(s);
    if Alive(s, g) {
      t := Step(s, Abort(g));
      Goes(s, Abort(g));
    } else {
      t := s;
      ReachesSelf(s);
    }
  }

  lemma CleanupTakes(s: Proto, c: nat) returns (t: Proto)
    requires Reachable(s) && c < |s.cleanups| && !s.cleanups[c].stage.Finished?
    ensures Reaches(s, t) && Taken(s, t)
  {
    ReachableIsSafe(s);
    var u := KillWorker(s, s.cleanups[c].gen);
    var a := if s.cleanups[c].stage.Sending? then CleanupClosed(c) else CleanupDone(c);
    Goes(u, a);
    t := Step(u, a);
    ReachesOn(s, u, t);
  }

  lemma LostReplyTakes(s: Proto, f: nat) returns (t: Proto)
    requires Reachable(s) && Wf(s) && f < |s.flushes| && s.flushes[f].stage.Waiting? && BarrierFate(s, f) == Some(Lost)
    ensures Reaches(s, t) && Taken(s, t)
  {
    Goes(s, FlushReply(f));
    t := Step(s, FlushReply(f));
  }

  lemma BouncedFlushTakes(s: Proto, f: nat) returns (t: Proto)
    requires Reachable(s) && Wf(s) && f < |s.flushes| && s.flushes[f].stage.Bouncing?
    ensures Reaches(s, t) && Taken(s, t)
  {
    Goes(s, ScheduleCleanup(f));
    var u := Step(s, ScheduleCleanup(f));
    t := CleanupTakes(u, |s.cleanups|);
    ReachesOn(s, u, t);
  }

  /** The answer of a flush that is not spent is lost with its worker, or was before. */
  lemma UnspentLoses(s: Proto, t: Proto, f: nat)
    requires Inv(s) && f < |s.flushes| && s.flushes[f].stage.Waiting? && !Acknowledged(s, f) && Undisturbed(s, t)
    requires |s.accepted| <= |t.settled| && forall p :: |s.settled| <= p < |s.accepted| ==> t.settled[p].fate.Lost?
    ensures BarrierFate(t, f) == Some(Lost)
  {
    assert FlushOk(s, f);
    var p := s.flushes[f].pos.value;
    if p < |s.settled| {
      assert SettledOk(s, s.settled[p]);
      assert s.settled[p].entry == s.accepted[p];
    }
  }

  lemma FlushLeftLoses(s: Proto, f: nat) returns (t: Proto)
    requires Reachable(s) && f < |s.flushes| && !FlushIsSpent(s, f)
    ensures Reaches(s, t) && !t.marker && |t.flushes| == |s.flushes| && t.failures == s.failures + 1
  {
    ReachableIsSafe(s);
    var u := MakeFailure(s);
    if s.flushes[f].stage.Bouncing? {
      t := BouncedFlushTakes(u, f);
    } else {
      UnspentLoses(s, u, f);
      t := LostReplyTakes(u, f);
    }
    ReachesOn(s, u, t);
  }

  lemma CleanupLeftLoses(s: Proto, c: nat) returns (t: Proto)
    requires Reachable(s) && c < |s.cleanups| && !s.cleanups[c].stage.Finished?
    ensures Reaches(s, t) && !t.marker && |t.flushes| == |s.flushes| && t.failures == s.failures + 1
  {
    var u := MakeFailure(s);
    t := CleanupTakes(u, c);
    ReachesOn(s, u, t);
  }

  // ---- A barrier that nobody waits for ------------------------------------------------------

  /** An update more in the channel of a worker that is alive, or one refused for want of room. */
  lemma SendOne(s: Proto) returns (t: Proto)
    requires Reachable(s) && Wf(s) && s.registered.Some? && !s.workers[s.registered.value].phase.Gone?
    ensures Reachable(t) && Wf(t) && Reaches(s, t) && t.registered == s.registered && |t.workers| == |s.workers|
    ensures t.flushes == s.flushes && t.settled == s.settled && s.accepted <= t.accepted
    ensures t.failures == s.failures && t.workers[s.registered.value].phase == s.workers[s.registered.value].phase
    ensures var n := |s.workers[s.registered.value].queue|;
            if n < CAPACITY then |t.workers[s.registered.value].queue| == n + 1
            else t.rejecting == s.rejecting + 1
  {
    Goes(s, SendUpdate(0, false));
    t := Step(s, SendUpdate(0, false));
  }

  lemma MarkOne(s: Proto) returns (t: Proto)
    requires Reachable(s) && Wf(s) && s.rejecting > 0
    ensures Reachable(t) && Wf(t) && Reaches(s, t)
    ensures t == s.(marker := true, rejecting := s.rejecting - 1, failures := s.failures + 1)
  {
    Goes(s, MarkRejected);
    t := Step(s, MarkRejected);
  }

  /** The queue is filled until an update is refused; the worker and the flushes stay where they are. */
  lemma {:induction false} FillAndRefuse(s: Proto) returns (t: Proto)
    requires Reachable(s) && Wf(s) && s.registered.Some? && !s.workers[s.registered.value].phase.Gone?
    ensures Reachable(t) && Wf(t) && Reaches(s, t) && t.registered == s.registered
    ensures t.flushes == s.flushes && t.settled == s.settled && s.accepted <= t.accepted
    ensures t.marker && t.failures == s.failures + 1
    ensures t.workers[s.registered.value].phase == s.workers[s.registered.value].phase
    decreases CAPACITY - |s.workers[s.registered.value].queue|
  {
    var u := SendOne(s);
    if |s.workers[s.registered.value].queue| < CAPACITY {
      t := FillAndRefuse(u);
    } else {
      t := MarkOne(u);
    }
    ReachesOn(s, u, t);
  }

  /** A barrier that is pending keeps its worker at work. */
  lemma BarrierHasWorker(s: Proto)
    requires Inv(s) && BarrierLeft(s)
    ensures s.registered.Some? && Working(s.workers[s.registered.value].phase)
    ensures s.workers[s.registered.value].phase.Receiving? ==> s.workers[s.registered.value].queue != []
    ensures InFlight(s.workers[s.registered.value].phase) != [] ==>
              |s.settled| < |s.accepted| && s.workers[s.registered.value].phase.entry == s.accepted[|s.settled|]
  {
    assert Pending(s) != [];
    var g := s.registered.value;
    assert WorkerOk(s, g);
    if InFlight(s.workers[g].phase) != [] {
      InFlightIsNext(s, g);
    }
  }

  /** The worker's next action towards the barrier. */
  function Onward(s: Proto): Action
    requires Wf(s) && s.registered.Some?
  {
    var g := s.registered.value;
    match s.workers[g].phase
    case Processing(e) => if e.Update? then WriteOk(g) else TakeMarker(g)
    case Acking(_, _) => SendAck(g)
    case _ => Receive(g)
  }

  lemma OnwardKeepsBarrier(s: Proto)
    requires Inv(s) && BarrierLeft(s)
    ensures Enabled(s, Onward(s))
    ensures var t := Step(s, Onward(s));
            && t.flushes == s.flushes && t.failures == s.failures
            && (Onward(s).TakeMarker? ==> !t.marker)
            && (!Onward(s).TakeMarker? ==> t.marker == s.marker && Wf(t) && BarrierLeft(t))
            && (!Onward(s).TakeMarker? ==> Distance(t) < Distance(s))
  {
    BarrierHasWorker(s);
    var p :| |s.settled| <= p < |s.accepted| && !s.accepted[p].Update? && !(p == |s.settled| && IsAcking(s));
    var t := Step(s, Onward(s));
    if !Onward(s).TakeMarker? {
      assert |t.settled| <= p < |t.accepted| && t.accepted[p] == s.accepted[p];
      assert !IsAcking(t);
    }
  }

  /** Steps of the worker, at most, until everything pending is settled. */
  function Distance(s: Proto): int {
    3 * (|s.accepted| - |s.settled|) + if s.registered.Some? && s.registered.value < |s.workers|
                                         && s.workers[s.registered.value].phase.Receiving? then 1 else 0
  }

  /** The worker comes to the first barrier and takes the marker. */
  lemma {:induction false} DrainToBarrier(s: Proto) returns (t: Proto)
    requires Reachable(s) && Wf(s) && BarrierLeft(s)
    ensures Reaches(s, t) && Taken(s, t)
    decreases Distance(s)
  {
    ReachableIsSafe(s);
    DistanceIsNatural(s);
    OnwardKeepsBarrier(s);
    var a := Onward(s);
    Goes(s, a);
    var u := Step(s, a);
    if a.TakeMarker? {
      t := u;
    } else {
      t := DrainToBarrier(u);
      ReachesOn(s, u, t);
    }
  }

  lemma DistanceIsNatural(s: Proto)
    requires Inv(s)
    ensures Distance(s) >= 0
  {
  }

  lemma BarrierLeftLoses(s: Proto) returns (t: Proto)
    requires Reachable(s) && Wf(s) && BarrierLeft(s)
    ensures Reaches(s, t) && !t.marker && |t.flushes| == |s.flushes| && t.failures == s.failures + 1
  {
    ReachableIsSafe(s);
    BarrierHasWorker(s);
    var u := FillAndRefuse(s);
    var p :| |s.settled| <= p < |s.accepted| && !s.accepted[p].Update? && !(p == |s.settled| && IsAcking(s));
    assert u.accepted[p] == s.accepted[p];
    t := DrainToBarrier(u);
    ReachesOn(s, u, t);
  }

  // ---- A later flush that is fooled ----------------------------------------------------------

  lemma {:induction false} ReachableAlong(ss: seq<Proto>, i: nat)
    requires IsPath(ss) && Reachable(ss[0]) && i < |ss|
    ensures Reachable(ss[i])
  {
    if i > 0 {
      ReachableAlong(ss, i - 1);
      assert Linked(ss, i);
      NextIsReachable(ss[i - 1], ss[i]);
    }
  }

  lemma NextIsReachable(s: Proto, t: Proto)
    requires Reachable(s) && Next(s, t)
    ensures Reachable(t)
  {
    var ss :| Run(ss) && ss[|ss| - 1] == s;
    RunExtends(ss, t);
  }

  lemma ReachableOn(s: Proto, t: Proto)
    requires Reachable(s) && Reaches(s, t)
    ensures Reachable(t)
  {
    var ss :| IsPath(ss) && ss[0] == s && ss[|ss| - 1] == t;
    ReachableAlong(ss, |ss| - 1);
  }

  /** Without a registered worker, a flush gets a new one. */
  lemma FlushAfresh(s: Proto) returns (t: Proto)
    requires Reachable(s) && Wf(s) && s.registered.None?
    ensures Reachable(t) && Wf(t) && Reaches(s, t)
    ensures var b := FlushBarrier(|s.flushes|);
            t == s.(registered := Some(|s.workers|), workers := s.workers + [Worker([b], Receiving, false)],
                    accepted := s.accepted + [b], flushes := s.flushes + [Flush(Some(|s.accepted|), Waiting)])
  {
    t := Step(s, BeginFlush(false));
    Goes(s, BeginFlush(false));
    var b := FlushBarrier(|s.flushes|);
    var w := s.workers + [Worker([], Receiving, false)];
    assert w[|s.workers|].queue + [b] == [b];
    assert w[|s.workers| := Worker([b], Receiving, false)] == s.workers + [Worker([b], Receiving, false)];
  }

  /** With nothing marked, its barrier is answered clean. */
  lemma AnswerAfresh(s: Proto, g: Generation, b: Entry) returns (t: Proto)
    requires Reachable(s) && Wf(s) && g < |s.workers| && s.workers[g] == Worker([b], Receiving, false) && b.FlushBarrier? && !s.marker
    ensures Reachable(t) && Wf(t) && Reaches(s, t) && t.flushes == s.flushes && !t.marker && t.failures == s.failures
    ensures t.settled == s.settled + [Settled(b, Acked(false), g)]
  {
    var u := TakeAfresh(s, g, b);
    t := Step(u, SendAck(g));
    Goes(u, SendAck(g));
    ReachesOn(s, u, t);
  }

  lemma ReceiveAfresh(s: Proto, g: Generation, b: Entry) returns (t: Proto)
    requires Reachable(s) && Wf(s) && g < |s.workers| && s.workers[g] == Worker([b], Receiving, false)
    ensures Reachable(t) && Wf(t) && Reaches(s, t)
    ensures t == s.(workers := s.workers[g := Worker([], Processing(b), false)])
  {
    t := Step(s, Receive(g));
    Goes(s, Receive(g));
    assert [b][1..] == [];
  }

  lemma TakeAfresh(s: Proto, g: Generation, b: Entry) returns (t: Proto)
    requires Reachable(s) && Wf(s) && g < |s.workers| && s.workers[g] == Worker([b], Receiving, false) && b.FlushBarrier? && !s.marker
    ensures Reachable(t) && Wf(t) && Reaches(s, t)
    ensures t == s.(workers := s.workers[g := Worker([], Acking(b, false), false)])
  {
    var u := ReceiveAfresh(s, g, b);
    t := Step(u, TakeMarker(g));
    Goes(u, TakeMarker(g));
    ReachesOn(s, u, t);
  }

  /** Where no marker is set, some continuation has its next flush return Ok. */
  lemma OkFlushFollows(s: Proto) returns (t: Proto)
    requires Reachable(s) && !s.marker
    ensures Reaches(s, t) && !t.marker && t.failures == s.failures
    ensures |t.flushes| == |s.flushes| + 1 && t.flushes[|s.flushes|].stage == Returned(true)
  {
    var s1 := Silence(s);
    var s2 := Forget(s1);
    var s3 := FlushAfresh(s2);
    var s4 := AnswerAfresh(s3, |s2.workers|, FlushBarrier(|s.flushes|));
    ReachesOn(s, s1, s2);
    ReachesOn(s, s2, s3);
    ReachesOn(s, s3, s4);
    var f := |s.flushes|;
    assert s4.flushes[f] == Flush(Some(|s4.settled| - 1), Waiting);
    t := Step(s4, FlushReply(f));
    Goes(s4, FlushReply(f));
    ReachesOn(s, s4, t);
  }

  // ---- The exact condition -------------------------------------------------------------------

  /** From a state with a leftover, a failure can be lost, and the next flush fooled. */
  lemma LeftoverLoses(s: Proto) returns (t: Proto, u: Proto)
    requires Reachable(s) && Wf(s) && Leftover(s)
    ensures Reaches(s, t) && !LossShows(t, BaseOf(s))
    ensures Reaches(s, u) && !OkVouches(u, BaseOf(s)) && |u.flushes| > |s.flushes|
  {
    if FlushLeft(s) {
      var f :| 0 <= f < |s.flushes| && !FlushIsSpent(s, f);
      t := FlushLeftLoses(s, f);
    } else if CleanupLeft(s) {
      var c :| 0 <= c < |s.cleanups| && !s.cleanups[c].stage.Finished?;
      t := CleanupLeftLoses(s, c);
    } else {
      t := BarrierLeftLoses(s);
    }
    ReachableOn(s, t);
    u := OkFlushFollows(t);
    ReachesOn(s, t, u);
  }

  /**
    From a reachable state, in every continuation, every later failure is marked or reported
    by a later flush, and flushes that all return Ok vouch for all failures since, exactly
    if the state has no leftover: every earlier flush has returned or has its answer, no
    barrier is left that has not been taken for, and every cleanup is over.
   */
  lemma LaterFailuresShowIff(s: Proto)
    requires Reachable(s)
    ensures Wf(s)
    ensures (forall t :: Reaches(s, t) ==> LossShows(t, BaseOf(s))) <==> !Leftover(s)
    ensures (forall t :: Reaches(s, t) ==> OkVouches(t, BaseOf(s))) <==> !Leftover(s)
  {
    ReachableIsSafe(s);
    if Leftover(s) {
      var t, u := LeftoverLoses(s);
    } else {
      forall t | Reaches(s, t)
        ensures LossShows(t, BaseOf(s)) && OkVouches(t, BaseOf(s))
      {
        CleanPointShowsLoss(s, t);
      }
    }
  }
}
