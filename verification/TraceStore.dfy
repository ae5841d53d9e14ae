/**
  The lifecycle transactions statement by statement, as the recorder issues them
  (crates/keycompute-db/src/lifecycle.rs, lines 397-946).

  The store is always in a state that some interleaving of transactions reaches, so the
  theorems about runs hold of it.  A method that is one transaction is atomic; where the
  source issues statements outside one, other transactions run in between.
 */
module TraceStores {
  import opened Common
  import opened Lifecycle
  import opened LifecycleSafety
  import opened LifecycleOutcomes

  datatype TraceError = InvalidUpdate | Missing | NotWritable | ConstraintViolated | WriteFailed

  class TraceStore {
    var requests: map<RequestId, Request>
    var attempts: seq<Attempt>
    var ledger: set<RequestId>
    var nodeTasks: Tasks
    var now: Time

    function View(): Db
      reads this
    {
      Db(requests, attempts, ledger, nodeTasks, now)
    }

    ghost predicate Valid()
      reads this
    {
      Reachable(View())
    }

    constructor (now: Time)
      ensures Valid() && View() == Db(map[], [], {}, map[], now)
    {
      requests, attempts, ledger, nodeTasks, this.now := map[], [], {}, map[], now;
      new;
      assert Run([View()]);
    }

    /** UPDATE gateway_requests SET ... WHERE request_id = r [AND finished_at IS NULL]. */
    method UpdateRequest(r: RequestId, onlyOpen: bool, change: Request -> Request) returns (rows: nat)
      modifies this`requests
      ensures rows == if r in old(requests) && (onlyOpen ==> Open(old(View()), r)) then 1 else 0
      ensures View() == if rows == 1 then WithRequest(old(View()), r, change(old(requests)[r])) else old(View())
    {
      if r in requests && (!onlyOpen || requests[r].finishedAt.None?) {
        requests := requests[r := change(requests[r]).(updatedAt := now)];
        return 1;
      }
      return 0;
    }

    /** Any number of transactions of the handler, the finisher, billing and the reconciler. */
    method OthersRun()
      requires Valid()
      modifies this
      ensures Valid() && Evolves(old(View()), View())
    {
      EvolvesFromSelf(View());
      var steps: nat :| 0 <= steps;
      while steps > 0
        invariant Valid() && Evolves(old(View()), View())
      {
        assert Enabled(View(), Tick(0));
        var a: Action :| Enabled(View(), a);
        StepIsReachable(View(), a);
        EvolvesIsTransitive(old(View()), View(), Step(View(), a));
        Become(Step(View(), a));
        steps := steps - 1;
      }
    }

    method Become(db: Db)
      modifies this
      ensures View() == db
    {
      requests, attempts, ledger, nodeTasks, now := db.requests, db.attempts, db.ledger, db.nodeTasks, db.now;
    }

    /** INSERT ... ON CONFLICT DO NOTHING: a request that exists is not touched. */
    method StartRequest(r: RequestId)
      requires Valid()
      modifies this`requests
      ensures Valid() && r in requests
      ensures r !in old(requests) ==> requests[r] == Request(Received, None, None, Pending, Actual, None, now)
      ensures r !in old(requests) ==> Open(View(), r) && requests[r].billing.Pending? && requests[r].quality.Actual?
      ensures forall x :: x in old(requests) ==> x in requests && requests[x] == old(requests)[x]
      ensures forall x :: x in requests ==> x in old(requests) || x == r
    {
      StepIsReachable(View(), DoStartRequest(r));
      if r !in requests {
        requests := requests[r := Request(Received, None, None, Pending, Actual, None, now)];
      }
    }

    /** Routing never touches a finished request, and never finishes one. */
    method SetRoute(r: RequestId, route: RouteType, status: RequestStatus) returns (ok: bool)
      requires Valid()
      modifies this`requests
      ensures Valid()
      ensures ok <==> !(Open(old(View()), r) && Terminal(status))
      ensures !ok || !Open(old(View()), r) ==> requests == old(requests)
      ensures ok && Open(old(View()), r) ==>
                Open(View(), r) && requests[r].route == Some(route) && requests[r].status == status
      ensures ok && Open(old(View()), r) ==>
                requests == old(requests)[r := old(requests)[r].(route := Some(route), status := status, updatedAt := now)]
    {
      StepIsReachable(View(), DoSetRoute(r, route, status));
      if r in requests && requests[r].finishedAt.None? && Terminal(status) {
        return false;
      }
      var rows := UpdateRequest(r, true, (q: Request) => q.(route := Some(route), status := status));
      return true;
    }

    method MarkTracePartial(r: RequestId) returns (ok: bool)
      requires Valid()
      modifies this`requests
      ensures Valid() && (ok <==> r in old(requests))
      ensures ok ==> requests == old(requests)[r := old(requests)[r].(quality := Partial, updatedAt := now)]
      ensures !ok ==> requests == old(requests)
    {
      StepIsReachable(View(), DoMarkPartial(r));
      var rows := UpdateRequest(r, false, (q: Request) => q.(quality := Partial));
      return rows == 1;
    }

    /**
      flush_intermediate_updates, given how the queue flush ended and whether the marking
      write gets through.  A failed flush is always reported; it leaves the trace partial
      unless the request is unknown or the write failed, which the error then tells.
     */
    method FlushIntermediateUpdates(r: RequestId, flushed: bool, written: bool) returns (failed: bool, unmarked: bool)
      requires Valid()
      modifies this`requests
      ensures Valid() && failed == !flushed
      ensures unmarked <==> !flushed && !(written && r in old(requests))
      ensures failed && !unmarked ==> r in requests && requests[r].quality.Partial?
      ensures !failed || unmarked ==> requests == old(requests)
    {
      if flushed {
        return false, false;
      }
      if !written {
        return true, true;
      }
      var marked := MarkTracePartial(r);
      return true, !marked;
    }

    method MarkBillingSucceeded(r: RequestId)
      requires Valid()
      modifies this`requests
      ensures Valid() && (r in old(requests) ==> r in requests && requests[r].billing.Billed?)
      ensures forall x :: x in old(requests) && x != r ==> x in requests && requests[x] == old(requests)[x]
    {
      StepIsReachable(View(), DoMarkBilled(r));
      var rows := UpdateRequest(r, false, (q: Request) => q.(billing := Billed));
    }

    /** A failure never overwrites a billing fact. */
    method MarkBillingFailed(r: RequestId)
      requires Valid()
      modifies this`requests
      ensures Valid()
      ensures forall x :: x in old(requests) && (x != r || !old(requests)[x].billing.Pending?) ==>
                x in requests && requests[x] == old(requests)[x]
      ensures r in old(requests) && old(requests)[r].billing.Pending? ==> r in requests && requests[r].billing.BillingFailed?
    {
      StepIsReachable(View(), DoMarkBillingFailed(r));
      if r in requests && requests[r].billing.Pending? {
        var rows := UpdateRequest(r, false, (q: Request) => q.(billing := BillingFailed));
      }
    }

    /** SELECT COALESCE(MAX(attempt_no), 0) over the attempts of a request. */
    method MaxAttemptNo(r: RequestId) returns (max: nat)
      ensures max == MaxNo(attempts, r)
    {
      max := 0;
      for i := 0 to |attempts|
        invariant max == MaxNo(attempts[..i], r)
      {
        assert attempts[..i + 1][..i] == attempts[..i];
        if attempts[i].request == r && attempts[i].no > max {
          max := attempts[i].no;
        }
      }
      assert attempts[..|attempts|] == attempts;
    }

    /**
      start_attempt: the reference names an attempt with that number; a new one continues
      the numbering of its request, and one that a lease already had is returned as it is.
     */
    method StartAttempt(s: AttemptStart) returns (r: Result<AttemptRef, TraceError>)
      requires Valid()
      modifies this
      ensures Valid() && Evolves(old(View()), View())
      ensures r.Err? ==> View() == old(View())
      ensures r.Ok? <==> Open(old(View()), s.request) && (TargetOk(s) || LeaseKnown(old(attempts), s))
      ensures r.Ok? ==> r.value.id < |attempts| && attempts[r.value.id].no == r.value.no
      ensures r.Ok? && LeaseKnown(old(attempts), s) ==>
                View() == old(View()) && HasLease(attempts[r.value.id], s.task.value, s.lease.value)
      ensures r.Ok? && !LeaseKnown(old(attempts), s) ==>
                && r.value == AttemptRef(|old(attempts)|, Count(old(attempts), s.request) + 1)
                && Started(old(View()), s, View()) && Open(View(), s.request)
    {
      ReachableIsSound(View());
      CommittedStartMeans(View(), s);
      StepIsReachable(View(), DoStartAttempt(s));
      r := StartTransaction(s);
    }

    /** The statements of that transaction. */
    method StartTransaction(s: AttemptStart) returns (r: Result<AttemptRef, TraceError>)
      modifies this
      ensures var tx := Lifecycle.StartAttempt(old(View()), s);
              if tx.Commit? then r == Ok(tx.value) && View() == tx.db else r.Err? && View() == old(View())
    {
      if s.request !in requests || requests[s.request].finishedAt.Some? {
        return Err(Missing);
      }
      if s.route.Node? && s.task.Some? && s.lease.Some? {
        var existing := FindLease(attempts, s.task.value, s.lease.value);
        if existing.Some? {
          return Ok(AttemptRef(existing.value, attempts[existing.value].no));
        }
      }
      if !TargetOk(s) {
        return Err(ConstraintViolated);
      }
      var no := MaxAttemptNo(s.request);
      var id := |attempts|;
      attempts := attempts + [Attempt(s.request, no + 1, s.route, s.task, s.lease, InProgress, false, None, None, None)];
      var rows := UpdateRequest(s.request, false, (q: Request) => q.(status := Running));
      return Ok(AttemptRef(id, no + 1));
    }

    /**
      finish_attempt_and_request: Ok means that the attempt is closed as asked and an open
      request moved on with it, that the trace is partial after a failed flush, and that a
      request finished before keeps its outcome.
     */
    method FinishAttemptAndRequest(f: AttemptFinish, flushFailed: bool) returns (r: Result<(), TraceError>)
      requires Valid()
      modifies this
      ensures Valid() && Evolves(old(View()), View())
      ensures r.Err? ==> View() == old(View())
      ensures r.Ok? <==> FinishPossible(old(View()), f)
      ensures r.Ok? ==> Finished(old(View()), f, flushFailed, View())
    {
      FinishIsReachable(View(), f, flushFailed);
      CommittedFinishes(View(), f, flushFailed);
      r := FinishTransaction(f, flushFailed);
    }

    /** The statements of that transaction. */
    method FinishTransaction(f: AttemptFinish, flushFailed: bool) returns (r: Result<(), TraceError>)
      modifies this
      ensures var tx := FinishAttempt(old(View()), f, flushFailed);
              if tx.Commit? then r == Ok(()) && View() == tx.db else r.Err? && View() == old(View())
    {
      if f.attemptStatus.InProgress? || (!f.isFinal && Terminal(f.requestStatus)) {
        return Err(InvalidUpdate);
      }
      if f.request !in requests {
        return Err(Missing);
      }
      if f.id < |attempts| && attempts[f.id].request == f.request && attempts[f.id].finishedAt.None? {
        if f.isFinal && HasFinal(attempts, f.request) {
          return Err(ConstraintViolated);
        }
        attempts := attempts[f.id := Closed(attempts[f.id], f)];
      } else {
        var idempotent := f.id < |attempts| && attempts[f.id].request == f.request
                          && attempts[f.id].status == f.attemptStatus && attempts[f.id].isFinal == f.isFinal;
        if !idempotent {
          return Err(NotWritable);
        }
        if flushFailed {
          var rows := UpdateRequest(f.request, false, (q: Request) => q.(quality := Partial));
        }
        return Ok(());
      }
      var rows;
      if Terminal(f.requestStatus) {
        rows := UpdateRequest(f.request, true,
                              (q: Request) => q.(status := f.requestStatus, error := f.error,
                                      billing := SettledBilling(q.billing, f.billing), finishedAt := Some(f.at),
                                      quality := Degrade(q.quality, flushFailed)));
      } else {
        rows := UpdateRequest(f.request, true,
                              (q: Request) => q.(status := f.requestStatus, quality := Degrade(q.quality, flushFailed)));
      }
      if rows != 1 && flushFailed {
        rows := UpdateRequest(f.request, false, (q: Request) => q.(quality := Partial));
      }
      return Ok(());
    }

    /**
      finish_request_without_attempt: two statements outside a transaction.  Ok means that
      the request is finished with that status, whoever finished it; an open request is
      always finished by this call, with its quality degraded after a failed flush.
     */
    method FinishRequestWithoutAttempt(f: RequestFinish, flushFailed: bool) returns (r: Result<(), TraceError>)
      requires Valid()
      modifies this
      ensures Valid() && Evolves(old(View()), View())
      ensures r.Ok? ==> f.request in requests && requests[f.request].finishedAt.Some? && requests[f.request].status == f.status
      ensures Terminal(f.status) && Open(old(View()), f.request) ==>
                r.Ok? && HandlerFinished(old(View()), f, flushFailed, View())
      ensures f.request in old(requests) && old(requests)[f.request].finishedAt.Some? ==>
                (r.Ok? <==> Terminal(f.status) && old(requests)[f.request].status == f.status)
      ensures !Terminal(f.status) ==> r.Err? && View() == old(View())
    {
      EvolvesFromSelf(View());
      if !Terminal(f.status) {
        return Err(InvalidUpdate);
      }
      ReachableIsSound(View());
      StepIsReachable(View(), DoFinishRequest(f, flushFailed));
      HandlerFinishes(View(), f, flushFailed);
      var rows := FinishStatement(f, flushFailed);
      if rows != 1 {
        OthersRun();
        ReachableIsSound(View());
        if f.request !in requests || requests[f.request].status != f.status {
          return Err(NotWritable);
        }
      }
      return Ok(());
    }

    /** The guarded update of that call. */
    method FinishStatement(f: RequestFinish, flushFailed: bool) returns (rows: nat)
      requires Terminal(f.status)
      modifies this`requests
      ensures rows == if Open(old(View()), f.request) then 1 else 0
      ensures rows == 1 ==> FinishRequest(old(View()), f, flushFailed) == Commit(View(), ())
      ensures rows == 0 ==> View() == old(View())
    {
      var missing := f.request in requests
                     && requests[f.request].route in {Some(ProviderAccount), Some(PassthroughBinding)}
                     && !HasAttempt(attempts, f.request);
      rows := UpdateRequest(f.request, true,
                            (q: Request) => q.(status := f.status, error := f.error,
                                    billing := SettledBilling(q.billing, f.billing), finishedAt := Some(f.at),
                                    quality := Degrade(q.quality, flushFailed || missing)));
    }

    /**
      The three statements of reconcile_stale_requests over the picked rows.  What it
      closes and terminates tells how the node task ended; a request ends partial and with
      its billing facts; a finished one changes only by a decision on stale pending billing.
     */
    method ReconcileStaleRequests(p: Picks, cutoff: int) returns (changed: nat)
      requires Valid() && Picked(View(), p, cutoff)
      modifies this
      ensures Valid() && Evolves(old(View()), View()) && View() == Reconcile(old(View()), p, cutoff)
      ensures changed == |p.requests| + |p.billing|
      ensures AttemptsJudged(old(View()), p.attempts, p.tasks1, View()) && RequestsReconciled(old(View()), p, View())
      ensures ErrorsAgree(old(View()), p, View())
    {
      ReconcileIsReachable(View(), p, cutoff);
      ReconcileJudges(View(), p, cutoff);
      changed := ReconcileStatements(p, cutoff);
    }

    method ReconcileStatements(p: Picks, cutoff: int) returns (changed: nat)
      requires Picked(View(), p, cutoff)
      modifies this`requests, this`attempts
      ensures View() == Reconcile(old(View()), p, cutoff) && changed == |p.requests| + |p.billing|
    {
      CloseStaleAttempts(p.attempts, p.tasks1);
      TerminateStaleRequests(p.requests, p.tasks2);
      DecideStaleBilling(p.billing);
      return |p.requests| + |p.billing|;
    }

    method CloseStaleAttempts(stale: set<RequestId>, tasks: Tasks)
      requires forall r :: r in stale ==> r in requests
      modifies this`attempts
      ensures View() == ReconcileAttempts(old(View()), stale, tasks)
      ensures AttemptsJudged(old(View()), stale, tasks, View())
    {
      ClosingJudges(View(), stale, tasks);
      var before := View();
      for i := 0 to |attempts|
        invariant |attempts| == |before.attempts| && View() == before.(attempts := attempts)
        invariant attempts[i..] == before.attempts[i..]
        invariant forall j :: 0 <= j < i ==> attempts[j] == ReconcileAttempts(before, stale, tasks).attempts[j]
      {
        assert attempts[i] == attempts[i..][0] == before.attempts[i];
        assert attempts[i + 1..] == attempts[i..][1..];
        if attempts[i].request in stale && attempts[i].finishedAt.None? {
          attempts := attempts[i := ReconciledAttempt(Seeing(before, tasks), i)];
        }
      }
      assert attempts == ReconcileAttempts(before, stale, tasks).attempts;
    }

    method TerminateStaleRequests(stale: set<RequestId>, tasks: Tasks)
      requires forall r :: r in stale ==> r in requests
      modifies this`requests
      ensures View() == ReconcileRequests(old(View()), stale, tasks)
      ensures RequestsTerminated(old(View()), stale, tasks, View())
    {
      var before := View();
      var left := stale;
      while left != {}
        invariant left <= stale && View() == ReconcileRequests(before, stale - left, tasks)
        decreases |left|
      {
        var r :| r in left;
        requests := requests[r := ReconciledRequest(Seeing(before, tasks), r)];
        ghost var done := stale - left;
        left := left - {r};
        assert stale - left == done + {r};
        OneMoreTerminated(before, done, r, tasks);
      }
      assert stale - left == stale;
      TerminatingJudges(before, stale, tasks);
    }

    method DecideStaleBilling(stale: set<RequestId>)
      requires forall r :: r in stale ==> r in requests
      modifies this`requests
      ensures View() == ReconcileBilling(old(View()), stale)
    {
      var before := View();
      var left := stale;
      while left != {}
        invariant left <= stale && requests.Keys == before.requests.Keys && View() == before.(requests := requests)
        invariant forall r :: r in requests ==>
                    requests[r] == if r in stale && r !in left then ReconcileBilling(before, stale).requests[r] else before.requests[r]
        decreases |left|
      {
        var r :| r in left;
        var billing := if r in ledger then Billed else BillingFailed;
        requests := requests[r := requests[r].(billing := billing, updatedAt := now)];
        left := left - {r};
      }
      assert requests == ReconcileBilling(before, stale).requests;
    }
  }

  lemma ReconcileIsReachable(db: Db, p: Picks, cutoff: int)
    requires Reachable(db) && Picked(db, p, cutoff)
    ensures Reachable(Reconcile(db, p, cutoff)) && Evolves(db, Reconcile(db, p, cutoff))
  {
    StepIsReachable(db, DoReconcile(p, cutoff));
  }

  lemma FinishIsReachable(db: Db, f: AttemptFinish, flushFailed: bool)
    requires Reachable(db)
    ensures var tx := FinishAttempt(db, f, flushFailed); Reachable(After(db, tx)) && Evolves(db, After(db, tx))
  {
    StepIsReachable(db, DoFinishAttempt(f, flushFailed));
  }

  lemma OneMoreTerminated(db: Db, done: set<RequestId>, r: RequestId, tasks: Tasks)
    requires r in db.requests && forall x :: x in done ==> x in db.requests
    ensures ReconcileRequests(db, done + {r}, tasks).requests ==
            ReconcileRequests(db, done, tasks).requests[r := ReconciledRequest(Seeing(db, tasks), r)]
  {
  }

  lemma EvolvesFromSelf(db: Db)
    ensures Evolves(db, db)
  {
  }
}
