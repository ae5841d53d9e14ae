/**
  A run in which an Ok flush does not vouch for what failed since the previous return
  (crates/keycompute-db/src/lifecycle.rs, lines 216-246).
 */
module LeftoverBarrier {
  import opened Common
  import opened IntermediateQueue
  import opened QueueSafety

  /** The recorder with one worker and no cleanups. */
  function Solo(queue: seq<Entry>, phase: Phase, marker: bool, flushes: seq<Flush>, accepted: seq<Entry>,
                settled: seq<Settled>, failures: nat): Proto
  {
    Proto(Some(0), [Worker(queue, phase, false)], marker, flushes, [], accepted, settled, 0, failures)
  }

  lemma SoloReceives(queue: seq<Entry>, marker: bool, flushes: seq<Flush>, accepted: seq<Entry>, settled: seq<Settled>, n: nat)
    requires queue != []
    ensures Next(Solo(queue, Receiving, marker, flushes, accepted, settled, n),
                 Solo(queue[1..], Processing(queue[0]), marker, flushes, accepted, settled, n))
  {
    var s := Solo(queue, Receiving, marker, flushes, accepted, settled, n);
    assert Enabled(s, Receive(0));
    assert Step(s, Receive(0)) == Solo(queue[1..], Processing(queue[0]), marker, flushes, accepted, settled, n);
  }

  lemma SoloFails(queue: seq<Entry>, id: nat, marker: bool, flushes: seq<Flush>, accepted: seq<Entry>, settled: seq<Settled>, n: nat)
    ensures Next(Solo(queue, Processing(Update(id)), marker, flushes, accepted, settled, n),
                 Solo(queue, Receiving, true, flushes, accepted, settled + [Settled(Update(id), WriteFailed, 0)], n + 1))
  {
    var s := Solo(queue, Processing(Update(id)), marker, flushes, accepted, settled, n);
    assert Enabled(s, WriteFails(0));
    assert Step(s, WriteFails(0)) ==
           Solo(queue, Receiving, true, flushes, accepted, settled + [Settled(Update(id), WriteFailed, 0)], n + 1);
  }

  lemma SoloTakes(queue: seq<Entry>, f: nat, marker: bool, flushes: seq<Flush>, accepted: seq<Entry>, settled: seq<Settled>, n: nat)
    ensures Next(Solo(queue, Processing(FlushBarrier(f)), marker, flushes, accepted, settled, n),
                 Solo(queue, Acking(FlushBarrier(f), marker), false, flushes, accepted, settled, n))
  {
    var s := Solo(queue, Processing(FlushBarrier(f)), marker, flushes, accepted, settled, n);
    assert Enabled(s, TakeMarker(0));
    assert Step(s, TakeMarker(0)) == Solo(queue, Acking(FlushBarrier(f), marker), false, flushes, accepted, settled, n);
  }

  lemma SoloAnswers(queue: seq<Entry>, e: Entry, failed: bool, marker: bool, flushes: seq<Flush>, accepted: seq<Entry>,
                    settled: seq<Settled>, n: nat)
    ensures Next(Solo(queue, Acking(e, failed), marker, flushes, accepted, settled, n),
                 Solo(queue, Receiving, marker, flushes, accepted, settled + [Settled(e, Acked(failed), 0)], n))
  {
    var s := Solo(queue, Acking(e, failed), marker, flushes, accepted, settled, n);
    assert Enabled(s, SendAck(0));
    assert Step(s, SendAck(0)) == Solo(queue, Receiving, marker, flushes, accepted, settled + [Settled(e, Acked(failed), 0)], n);
  }

  const U: Entry := Update(7)
  const B: Entry := FlushBarrier(0)
  const WAITING: seq<Flush> := [Flush(Some(1), Waiting)]
  const LATE: seq<Flush> := [Flush(Some(1), Returned(false))]
  const FAILED: seq<Settled> := [Settled(U, WriteFailed, 0)]

  const ACCEPTED: Proto := Solo([U], Receiving, false, [], [U], [], 0)
  const FLUSHING: Proto := Solo([U, B], Receiving, false, WAITING, [U, B], [], 0)
  const GIVEN_UP: Proto := Solo([U, B], Receiving, false, LATE, [U, B], [], 0)
  const WRITING: Proto := Solo([B], Processing(U), false, LATE, [U, B], [], 0)
  const MARKED: Proto := Solo([B], Receiving, true, LATE, [U, B], FAILED, 1)
  const AT_BARRIER: Proto := Solo([], Processing(B), true, LATE, [U, B], FAILED, 1)
  const TAKEN: Proto := Solo([], Acking(B, true), false, LATE, [U, B], FAILED, 1)
  const FORGOTTEN: Proto := Solo([], Receiving, false, LATE, [U, B], FAILED + [Settled(B, Acked(true), 0)], 1)

  lemma UpdateIsAccepted()
    ensures Next(INIT, ACCEPTED)
  {
    assert Enabled(INIT, SendUpdate(7, false));
    var s := Step(INIT, SendUpdate(7, false));
    assert s.workers[0].queue == [U] && s.workers == ACCEPTED.workers;
    assert s.accepted == [U];
    assert s == ACCEPTED;
  }

  lemma FlushStarts()
    ensures Next(ACCEPTED, FLUSHING)
  {
    assert Enabled(ACCEPTED, BeginFlush(false));
    var s := Step(ACCEPTED, BeginFlush(false));
    assert s.workers[0].queue == [U, B] && s.workers == FLUSHING.workers;
    assert s.accepted == [U, B] && s.flushes == WAITING;
    assert s == FLUSHING;
  }

  lemma FlushGivesUp()
    ensures Next(FLUSHING, GIVEN_UP)
  {
    assert Enabled(FLUSHING, FlushTimeout(0));
    assert Step(FLUSHING, FlushTimeout(0)).flushes == LATE;
    assert Step(FLUSHING, FlushTimeout(0)) == GIVEN_UP;
  }

  lemma RestFollows()
    ensures Next(GIVEN_UP, WRITING) && Next(WRITING, MARKED) && Next(MARKED, AT_BARRIER)
    ensures Next(AT_BARRIER, TAKEN) && Next(TAKEN, FORGOTTEN)
  {
    assert [U, B][1..] == [B] && [B][1..] == [] && [] + FAILED == FAILED;
    SoloReceives([U, B], false, LATE, [U, B], [], 0);
    SoloFails([B], 7, false, LATE, [U, B], [], 0);
    SoloReceives([B], true, LATE, [U, B], FAILED, 1);
    SoloTakes([], 0, true, LATE, [U, B], FAILED, 1);
    SoloAnswers([], B, true, false, LATE, [U, B], FAILED, 1);
  }

  /**
    A flush times out; only then does the write before its barrier fail, and the barrier,
    which nobody waits for any more, takes the marker: the next flush finds none, though
    the failure came after the previous return.
   */
  lemma LeftoverBarrierTakesMarker()
    ensures var run := [INIT, ACCEPTED, FLUSHING, GIVEN_UP, WRITING, MARKED, AT_BARRIER, TAKEN, FORGOTTEN]; Run(run)
    ensures GIVEN_UP.flushes[0].stage == Returned(false) && GIVEN_UP.failures == 0 && Leftover(GIVEN_UP)
    ensures !Leftover(FORGOTTEN) && FORGOTTEN.failures == 1 && !FORGOTTEN.marker
  {
    var run := [INIT, ACCEPTED, FLUSHING, GIVEN_UP, WRITING, MARKED, AT_BARRIER, TAKEN, FORGOTTEN];
    UpdateIsAccepted();
    FlushStarts();
    FlushGivesUp();
    RestFollows();
    assert forall i :: 0 < i < |run| ==> Linked(run, i);
    assert GIVEN_UP.accepted[1] == B;
  }
}
