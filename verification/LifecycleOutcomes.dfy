/**
  What the finishing transactions write into the rows
  (crates/keycompute-db/src/lifecycle.rs, lines 445-946), and that it stays written for
  the rest of every run.
 */
module LifecycleOutcomes {
  import opened Common
  import opened Lifecycle
  import opened LifecycleSafety

  /** Rows of other requests and other attempts, the ledger and the tasks are as they were. */
  predicate OnlyTouches(db: Db, r: RequestId, id: Option<AttemptId>, db': Db) {
    && db'.requests.Keys == db.requests.Keys && |db'.attempts| == |db.attempts|
    && (forall x :: x in db.requests && x != r ==> db'.requests[x] == db.requests[x])
    && (forall i :: 0 <= i < |db.attempts| && Some(i) != id ==> db'.attempts[i] == db.attempts[i])
    && db'.ledger == db.ledger && db'.nodeTasks == db.nodeTasks && db'.now == db.now
  }

  /** Billing that succeeded or failed is a fact; anything else gives way to what is proposed. */
  predicate BilledAs(before: BillingStatus, proposed: BillingStatus, after: BillingStatus) {
    after == if before in {Billed, BillingFailed} then before else proposed
  }

  // ---- Starting an attempt ------------------------------------------------------------

  predicate LeaseKnown(xs: seq<Attempt>, s: AttemptStart) {
    && s.route.Node? && s.task.Some? && s.lease.Some?
    && exists i :: 0 <= i < |xs| && HasLease(xs[i], s.task.value, s.lease.value)
  }

  /** The added attempt is the one asked for, next in number, and its request is running. */
  predicate Started(db: Db, s: AttemptStart, db': Db) {
    && s.request in db.requests
    && db'.attempts == db.attempts + [Attempt(s.request, Count(db.attempts, s.request) + 1, s.route, s.task, s.lease,
                                              InProgress, false, None, None, None)]
    && OnlyTouches(db, s.request, None, db'.(attempts := db.attempts))
    && db'.requests[s.request] == db.requests[s.request].(status := Running, updatedAt := db.now)
  }

  /** A committed start returns the attempt of a known lease, or adds one that continues the numbering. */
  lemma CommittedStartMeans(db: Db, s: AttemptStart)
    requires Sound(db)
    ensures var tx := StartAttempt(db, s);
            && (tx.Commit? <==> Open(db, s.request) && (TargetOk(s) || LeaseKnown(db.attempts, s)))
            && (tx.Commit? && LeaseKnown(db.attempts, s) ==>
                  && tx.db == db && tx.value.id < |db.attempts| && db.attempts[tx.value.id].no == tx.value.no
                  && HasLease(db.attempts[tx.value.id], s.task.value, s.lease.value))
            && (tx.Commit? && !LeaseKnown(db.attempts, s) ==>
                  && Started(db, s, tx.db)
                  && tx.value == AttemptRef(|db.attempts|, Count(db.attempts, s.request) + 1))
  {
    MaxIsCount(db.attempts, s.request);
  }

  // ---- Finishing an attempt -------------------------------------------------------------

  /** A final decision on an open attempt, or the same decision again on a closed one. */
  predicate FinishPossible(db: Db, f: AttemptFinish) {
    && f.attemptStatus != InProgress && (Terminal(f.requestStatus) ==> f.isFinal)
    && f.request in db.requests && f.id < |db.attempts| && db.attempts[f.id].request == f.request
    && (if db.attempts[f.id].finishedAt.Some?
        then db.attempts[f.id].status == f.attemptStatus && db.attempts[f.id].isFinal == f.isFinal
        else f.isFinal ==> forall i :: 0 <= i < |db.attempts| && db.attempts[i].request == f.request ==> !db.attempts[i].isFinal)
  }

  predicate AttemptWritten(x: Attempt, f: AttemptFinish, x': Attempt) {
    x' == Attempt(x.request, x.no, x.route, x.task, x.lease, f.attemptStatus, f.isFinal, f.error, f.endReason, Some(f.at))
  }

  /** An open request takes the status; a terminal one also its error, billing and finish time. */
  predicate RequestWritten(q: Request, f: AttemptFinish, flushFailed: bool, now: Time, q': Request) {
    && q'.status == f.requestStatus && q'.route == q.route && q'.updatedAt == now
    && q'.quality == (if flushFailed then Partial else q.quality)
    && (if Terminal(f.requestStatus)
        then q'.error == f.error && q'.finishedAt == Some(f.at) && BilledAs(q.billing, f.billing, q'.billing)
        else q'.error == q.error && q'.finishedAt.None? && q'.billing == q.billing)
  }

  predicate OnlyDegraded(q: Request, flushFailed: bool, now: Time, q': Request) {
    q' == if flushFailed then q.(quality := Partial, updatedAt := now) else q
  }

  /** What a committed finish leaves: every field of both rows, and nothing else changed. */
  predicate Finished(db: Db, f: AttemptFinish, flushFailed: bool, db': Db) {
    && f.request in db.requests && f.id < |db.attempts|
    && OnlyTouches(db, f.request, Some(f.id), db')
    && (if db.attempts[f.id].finishedAt.None? then AttemptWritten(db.attempts[f.id], f, db'.attempts[f.id])
        else db'.attempts[f.id] == db.attempts[f.id])
    && (if db.attempts[f.id].finishedAt.None? && Open(db, f.request)
        then RequestWritten(db.requests[f.request], f, flushFailed, db.now, db'.requests[f.request])
        else OnlyDegraded(db.requests[f.request], flushFailed, db.now, db'.requests[f.request]))
  }

  lemma CommittedFinishes(db: Db, f: AttemptFinish, flushFailed: bool)
    ensures FinishAttempt(db, f, flushFailed).Commit? <==> FinishPossible(db, f)
    ensures FinishAttempt(db, f, flushFailed).Commit? ==> Finished(db, f, flushFailed, FinishAttempt(db, f, flushFailed).db)
  {
  }

  /** Billing written at a finish moves on from there only. */
  predicate BillingSince(before: BillingStatus, proposed: BillingStatus, after: BillingStatus) {
    exists written :: BilledAs(before, proposed, written) && BillingMoves(written, after)
  }

  /**
    What a committed finish of an open attempt wrote stands in every later state: the
    attempt as a whole and, if it ended the request, the request's outcome.
   */
  lemma FinishIsKept(dbs: seq<Db>, i: nat, j: nat, f: AttemptFinish, flushFailed: bool)
    requires Run(dbs) && i < j < |dbs|
    requires FinishAttempt(dbs[i], f, flushFailed) == Commit(dbs[i + 1], ())
    requires dbs[i].attempts[f.id].finishedAt.None?
    ensures f.id < |dbs[j].attempts| && AttemptWritten(dbs[i].attempts[f.id], f, dbs[j].attempts[f.id])
    ensures Open(dbs[i], f.request) && Terminal(f.requestStatus) ==>
              && f.request in dbs[j].requests && EndedBy(dbs[j].requests[f.request], f.requestStatus, f.error, f.at)
              && dbs[j].requests[f.request].route == dbs[i].requests[f.request].route
              && BillingSince(dbs[i].requests[f.request].billing, f.billing, dbs[j].requests[f.request].billing)
  {
    CommittedFinishes(dbs[i], f, flushFailed);
    RunEvolves(dbs, i + 1, j);
    assert AttemptEvolves(dbs[i + 1].attempts[f.id], dbs[j].attempts[f.id]);
    if Open(dbs[i], f.request) && Terminal(f.requestStatus) {
      FirstFinishWins(dbs, i + 1, j, f.request);
      assert RequestEvolves(dbs[i + 1].requests[f.request], dbs[j].requests[f.request]);
    }
  }

  predicate EndedBy(q: Request, status: RequestStatus, error: Option<ErrorInfo>, at: Time) {
    q.status == status && q.error == error && q.finishedAt == Some(at)
  }

  // ---- The handler's finish -----------------------------------------------------------

  /** Routed to an account, and no attempt was ever made. */
  predicate NeverAttempted(db: Db, r: RequestId)
    requires r in db.requests
  {
    && (db.requests[r].route == Some(ProviderAccount) || db.requests[r].route == Some(PassthroughBinding))
    && forall i :: 0 <= i < |db.attempts| ==> db.attempts[i].request != r
  }

  /** The handler's finish of an open request, field by field. */
  predicate HandlerFinished(db: Db, f: RequestFinish, flushFailed: bool, db': Db) {
    && f.request in db.requests && OnlyTouches(db, f.request, None, db')
    && var q, q' := db.requests[f.request], db'.requests[f.request];
       && EndedBy(q', f.status, f.error, f.at) && BilledAs(q.billing, f.billing, q'.billing)
       && q'.route == q.route && q'.updatedAt == db.now
       && q'.quality == if flushFailed || NeverAttempted(db, f.request) then Partial else q.quality
  }

  lemma HandlerFinishes(db: Db, f: RequestFinish, flushFailed: bool)
    ensures FinishRequest(db, f, flushFailed).Commit? <==>
              Terminal(f.status) && f.request in db.requests && (Open(db, f.request) || db.requests[f.request].status == f.status)
    ensures FinishRequest(db, f, flushFailed).Commit? ==>
              if Open(db, f.request) then HandlerFinished(db, f, flushFailed, FinishRequest(db, f, flushFailed).db)
              else FinishRequest(db, f, flushFailed).db == db
  {
  }

  /** It stands in every later state, whatever attempts finish afterwards. */
  lemma HandlerFinishIsKept(dbs: seq<Db>, i: nat, j: nat, f: RequestFinish, flushFailed: bool)
    requires Run(dbs) && i < j < |dbs| && Open(dbs[i], f.request)
    requires FinishRequest(dbs[i], f, flushFailed) == Commit(dbs[i + 1], ())
    ensures f.request in dbs[j].requests && EndedBy(dbs[j].requests[f.request], f.status, f.error, f.at)
    ensures BillingSince(dbs[i].requests[f.request].billing, f.billing, dbs[j].requests[f.request].billing)
    ensures flushFailed || NeverAttempted(dbs[i], f.request) ==> dbs[j].requests[f.request].quality.Partial?
  {
    HandlerFinishes(dbs[i], f, flushFailed);
    FirstFinishWins(dbs, i + 1, j, f.request);
    RunEvolves(dbs, i + 1, j);
    assert RequestEvolves(dbs[i + 1].requests[f.request], dbs[j].requests[f.request]);
  }

  // ---- The reconciler's verdict -----------------------------------------------------------

  /** The request went to a node whose task ended so. */
  predicate NodeEnded(route: Option<RouteType>, task: Option<NodeStatus>, end: NodeStatus) {
    route == Some(Node) && task == Some(end)
  }

  /** What a stale request is blamed on, by its route and how its task ended. */
  predicate BlamedOn(route: Option<RouteType>, task: Option<NodeStatus>, e: ErrorInfo) {
    && (route != Some(Node) ==> e == ErrorInfo("gateway", "timeout", "trace_stale_reconciled"))
    && (NodeEnded(route, task, NodeSucceeded) ==> e == ErrorInfo("gateway", "internal", "node_client_response_missing"))
    && (NodeEnded(route, task, NodeFailed) ==> e == ErrorInfo("node", "node_failed", "node_task_failed"))
    && (route == Some(Node) && !NodeEnded(route, task, NodeSucceeded) && !NodeEnded(route, task, NodeFailed) ==>
          e == ErrorInfo("node", "node_expired", "node_task_expired"))
  }

  /** A terminated request failed exactly if its node task ended in success or failure; else it timed out. */
  predicate RequestJudged(route: Option<RouteType>, task: Option<NodeStatus>, q: Request) {
    && q.status in {Failed, TimedOut}
    && (q.status == Failed <==> NodeEnded(route, task, NodeSucceeded) || NodeEnded(route, task, NodeFailed))
    && q.error.Some? && BlamedOn(route, task, q.error.value)
  }

  /** A closed attempt tells how its task ended, and carries an error exactly if that was no success. */
  predicate AttemptJudged(route: Option<RouteType>, task: Option<NodeStatus>, x: Attempt) {
    && x.status in {Done, Erred, Expired, Overdue}
    && (x.status == Done <==> NodeEnded(route, task, NodeSucceeded))
    && (x.status == Erred <==> NodeEnded(route, task, NodeFailed))
    && (x.status == Expired <==> NodeEnded(route, task, NodeExpired))
    && (x.error.None? <==> x.status == Done) && (x.error.Some? ==> BlamedOn(route, task, x.error.value))
    && x.endReason == Some(if x.status == Done then "completed" else if x.status == Erred then "upstream_error" else "timeout")
  }

  /** The node task of a request, as a statement saw it. */
  function SeenTask(tasks: Tasks, r: RequestId): Option<NodeStatus> {
    if r in tasks then Some(tasks[r]) else None
  }

  /** The first statement closes exactly the open attempts of what it picked. */
  predicate AttemptsJudged(db: Db, stale: set<RequestId>, tasks: Tasks, db': Db) {
    && |db'.attempts| == |db.attempts|
    && forall i :: 0 <= i < |db.attempts| ==>
         var x := db.attempts[i];
         if x.request in stale && x.finishedAt.None? && x.request in db.requests
         then && SameIdentity(x, db'.attempts[i]) && db'.attempts[i].finishedAt == Some(db.now)
              && AttemptJudged(db.requests[x.request].route, SeenTask(tasks, x.request), db'.attempts[i])
         else db'.attempts[i] == x
  }

  /** The second statement's change of a request: judged, partial, and billed no more than it was. */
  predicate RequestTerminated(q: Request, task: Option<NodeStatus>, now: Time, q': Request) {
    && RequestJudged(q.route, task, q') && q'.finishedAt == Some(now) && q'.quality.Partial?
    && BilledAs(q.billing, NotApplicable, q'.billing) && q'.route == q.route && q'.updatedAt == now
  }

  predicate RequestsTerminated(db: Db, stale: set<RequestId>, tasks: Tasks, db': Db) {
    && db'.requests.Keys == db.requests.Keys
    && forall r :: r in db.requests ==>
         if r in stale then RequestTerminated(db.requests[r], SeenTask(tasks, r), db.now, db'.requests[r])
         else db'.requests[r] == db.requests[r]
  }

  /** What reconciliation leaves of a request, by which statement picked it. */
  predicate RequestReconciled(db: Db, p: Picks, r: RequestId, q': Request)
    requires r in db.requests
  {
    var q := db.requests[r];
    && (r in p.requests ==> RequestTerminated(q, SeenTask(p.tasks2, r), db.now, q'))
    && (r in p.billing ==> q' == q.(billing := if r in db.ledger then Billed else BillingFailed, updatedAt := db.now))
    && (r !in p.requests && r !in p.billing ==> q' == q)
  }

  predicate RequestsReconciled(db: Db, p: Picks, db': Db) {
    && db'.requests.Keys == db.requests.Keys
    && forall r :: r in db.requests ==> RequestReconciled(db, p, r, db'.requests[r])
  }

  /** The attempt is closed and its request terminated, by statements that saw the same task. */
  predicate JudgedOnce(db: Db, p: Picks, i: AttemptId)
    requires i < |db.attempts|
  {
    var r := db.attempts[i].request;
    && r in p.attempts && r in p.requests && r in db.requests && db.attempts[i].finishedAt.None?
    && SeenTask(p.tasks1, r) == SeenTask(p.tasks2, r)
  }

  /** Such a pair of rows carries one error, unless the task succeeded. */
  predicate ErrorsAgree(db: Db, p: Picks, db': Db) {
    forall i :: 0 <= i < |db.attempts| == |db'.attempts| && JudgedOnce(db, p, i) ==>
      var r := db.attempts[i].request;
      && r in db'.requests
      && (!NodeEnded(db.requests[r].route, SeenTask(p.tasks1, r), NodeSucceeded) ==>
            db'.attempts[i].error == db'.requests[r].error)
  }

  lemma AttemptVerdict(db: Db, tasks: Tasks, i: AttemptId)
    requires i < |db.attempts| && db.attempts[i].request in db.requests
    ensures var x, x' := db.attempts[i], ReconciledAttempt(Seeing(db, tasks), i);
            && SameIdentity(x, x') && x'.finishedAt == Some(db.now)
            && AttemptJudged(db.requests[x.request].route, SeenTask(tasks, x.request), x')
  {
  }

  lemma RequestVerdict(db: Db, tasks: Tasks, r: RequestId)
    requires r in db.requests
    ensures RequestTerminated(db.requests[r], SeenTask(tasks, r), db.now, ReconciledRequest(Seeing(db, tasks), r))
  {
  }

  lemma ClosingJudges(db: Db, stale: set<RequestId>, tasks: Tasks)
    requires forall r :: r in stale ==> r in db.requests
    ensures AttemptsJudged(db, stale, tasks, ReconcileAttempts(db, stale, tasks))
  {
    forall i | 0 <= i < |db.attempts| && db.attempts[i].request in stale
      ensures var x, x' := db.attempts[i], ReconciledAttempt(Seeing(db, tasks), i);
              && SameIdentity(x, x') && x'.finishedAt == Some(db.now)
              && AttemptJudged(db.requests[x.request].route, SeenTask(tasks, x.request), x')
    {
      AttemptVerdict(db, tasks, i);
    }
  }

  lemma TerminatingJudges(db: Db, stale: set<RequestId>, tasks: Tasks)
    requires forall r :: r in stale ==> r in db.requests
    ensures RequestsTerminated(db, stale, tasks, ReconcileRequests(db, stale, tasks))
  {
    forall r | r in stale
      ensures RequestTerminated(db.requests[r], SeenTask(tasks, r), db.now, ReconciledRequest(Seeing(db, tasks), r))
    {
      RequestVerdict(db, tasks, r);
    }
  }

  lemma ReconcileJudgesAttempts(db: Db, p: Picks, cutoff: int)
    requires Picked(db, p, cutoff)
    ensures AttemptsJudged(db, p.attempts, p.tasks1, Reconcile(db, p, cutoff))
  {
    ClosingJudges(db, p.attempts, p.tasks1);
  }

  lemma ReconcileJudgesRequest(db: Db, p: Picks, cutoff: int, r: RequestId)
    requires Picked(db, p, cutoff) && r in db.requests
    ensures RequestReconciled(db, p, r, Reconcile(db, p, cutoff).requests[r])
  {
    var closed := ReconcileAttempts(db, p.attempts, p.tasks1);
    RequestVerdict(closed, p.tasks2, r);
  }

  lemma ReconcileJudges(db: Db, p: Picks, cutoff: int)
    requires Picked(db, p, cutoff)
    ensures AttemptsJudged(db, p.attempts, p.tasks1, Reconcile(db, p, cutoff)) && RequestsReconciled(db, p, Reconcile(db, p, cutoff))
    ensures ErrorsAgree(db, p, Reconcile(db, p, cutoff))
  {
    ReconcileJudgesAttempts(db, p, cutoff);
    forall r | r in db.requests
      ensures RequestReconciled(db, p, r, Reconcile(db, p, cutoff).requests[r])
    {
      ReconcileJudgesRequest(db, p, cutoff, r);
    }
    JudgedAlike(db, p, Reconcile(db, p, cutoff));
  }

  /** Two rows judged by one task are blamed on the same. */
  lemma JudgedAlike(db: Db, p: Picks, db': Db)
    requires AttemptsJudged(db, p.attempts, p.tasks1, db') && RequestsReconciled(db, p, db')
    ensures ErrorsAgree(db, p, db')
  {
    forall i | 0 <= i < |db.attempts| && JudgedOnce(db, p, i)
      ensures var r := db.attempts[i].request;
              && r in db'.requests
              && (!NodeEnded(db.requests[r].route, SeenTask(p.tasks1, r), NodeSucceeded) ==>
                    db'.attempts[i].error == db'.requests[r].error)
    {
      var r := db.attempts[i].request;
      assert RequestReconciled(db, p, r, db'.requests[r]);
    }
  }

  /** The verdict on a request stands in every later state. */
  lemma VerdictIsKept(dbs: seq<Db>, i: nat, j: nat, p: Picks, cutoff: int, r: RequestId)
    requires Run(dbs) && i < j < |dbs| && Picked(dbs[i], p, cutoff) && dbs[i + 1] == Reconcile(dbs[i], p, cutoff)
    requires r in p.requests
    ensures r in dbs[i].requests && r in dbs[j].requests && dbs[j].requests[r].finishedAt == Some(dbs[i].now)
    ensures RequestJudged(dbs[i].requests[r].route, SeenTask(p.tasks2, r), dbs[j].requests[r])
    ensures dbs[j].requests[r].quality.Partial?
    ensures BillingSince(dbs[i].requests[r].billing, NotApplicable, dbs[j].requests[r].billing)
  {
    assert Stale(Seeing(dbs[i], p.tasks2), r, cutoff);
    ReconcileJudgesRequest(dbs[i], p, cutoff, r);
    FirstFinishWins(dbs, i + 1, j, r);
    RunEvolves(dbs, i + 1, j);
    assert RequestEvolves(dbs[i + 1].requests[r], dbs[j].requests[r]);
  }

  /** So does the verdict on an attempt. */
  lemma AttemptVerdictIsKept(dbs: seq<Db>, i: nat, j: nat, p: Picks, cutoff: int, k: AttemptId)
    requires Run(dbs) && i < j < |dbs| && Picked(dbs[i], p, cutoff) && dbs[i + 1] == Reconcile(dbs[i], p, cutoff)
    requires k < |dbs[i].attempts| && dbs[i].attempts[k].request in p.attempts && dbs[i].attempts[k].finishedAt.None?
    ensures k < |dbs[j].attempts| && dbs[j].attempts[k].finishedAt == Some(dbs[i].now)
    ensures var r := dbs[i].attempts[k].request;
            r in dbs[i].requests && AttemptJudged(dbs[i].requests[r].route, SeenTask(p.tasks1, r), dbs[j].attempts[k])
  {
    assert Stale(Seeing(dbs[i], p.tasks1), dbs[i].attempts[k].request, cutoff);
    ReconcileJudgesAttempts(dbs[i], p, cutoff);
    RunEvolves(dbs, i + 1, j);
    assert AttemptEvolves(dbs[i + 1].attempts[k], dbs[j].attempts[k]);
  }

  // ---- Freshness -----------------------------------------------------------------------------

  /** A row that changed is stamped with the present, and no stamp lies in the future. */
  predicate Stamped(db: Db, db': Db) {
    && db.now <= db'.now
    && (forall r :: r in db'.requests ==> db'.requests[r].updatedAt <= db'.now)
    && (forall r :: r in db.requests && r in db'.requests ==>
          db'.requests[r] == db.requests[r] || db'.requests[r].updatedAt == db'.now)
    && (forall r :: r in db'.requests && r !in db.requests ==> db'.requests[r].updatedAt == db'.now)
  }

  predicate StampsPast(db: Db) {
    forall r :: r in db.requests ==> db.requests[r].updatedAt <= db.now
  }

  /** One row is written, or none. */
  lemma OneRowStamped(db: Db, db': Db, r: RequestId)
    requires StampsPast(db) && db'.now == db.now
    requires db'.requests == db.requests
             || (r in db'.requests && db'.requests == db.requests[r := db'.requests[r]] && db'.requests[r].updatedAt == db.now)
    ensures Stamped(db, db') && StampsPast(db')
  {
  }

  lemma ReconcileStamps(db: Db, p: Picks, cutoff: int)
    requires StampsPast(db) && Picked(db, p, cutoff)
    ensures Stamped(db, Reconcile(db, p, cutoff)) && StampsPast(Reconcile(db, p, cutoff))
  {
  }

  lemma FinishStamps(db: Db, f: AttemptFinish, flushFailed: bool)
    requires StampsPast(db)
    ensures var db' := After(db, FinishAttempt(db, f, flushFailed)); Stamped(db, db') && StampsPast(db')
  {
    OneRowStamped(db, After(db, FinishAttempt(db, f, flushFailed)), f.request);
  }

  lemma StepStamps(db: Db, a: Action)
    requires Enabled(db, a) && StampsPast(db)
    ensures Stamped(db, Step(db, a)) && StampsPast(Step(db, a))
  {
    match a
    case DoReconcile(p, cutoff) => ReconcileStamps(db, p, cutoff);
    case DoFinishAttempt(f, flushFailed) => FinishStamps(db, f, flushFailed);
    case DoFinishRequest(f, flushFailed) => OneRowStamped(db, Step(db, a), f.request);
    case DoStartAttempt(s) => OneRowStamped(db, Step(db, a), s.request);
    case Tick(_) =>
    case NodeTaskMoves(_, _) =>
    case _ => OneRowStamped(db, Step(db, a), a.r);
  }

  lemma LinkStamps(dbs: seq<Db>, i: nat)
    requires Run(dbs) && 0 < i < |dbs| && StampsPast(dbs[i - 1])
    ensures Stamped(dbs[i - 1], dbs[i]) && StampsPast(dbs[i])
  {
    assert Linked(dbs, i);
    var a :| Enabled(dbs[i - 1], a) && dbs[i] == Step(dbs[i - 1], a);
    StepStamps(dbs[i - 1], a);
  }

  lemma {:induction false} StampsOnlyGrow(dbs: seq<Db>, i: nat, j: nat, r: RequestId)
    requires Run(dbs) && i <= j < |dbs|
    ensures StampsPast(dbs[j]) && dbs[i].now <= dbs[j].now
    ensures r in dbs[i].requests ==> r in dbs[j].requests && dbs[i].requests[r].updatedAt <= dbs[j].requests[r].updatedAt
    decreases j
  {
    if j > 0 {
      StampsOnlyGrow(dbs, if i < j then i else j - 1, j - 1, r);
      LinkStamps(dbs, j);
      RunEvolves(dbs, j - 1, j);
    }
  }

  /**
    The reconciler leaves alone whatever was written lately: a request whose row a step
    created or changed is in no batch, at any later time, whose cutoff is not after that.
   */
  lemma FreshRequestIsSpared(dbs: seq<Db>, i: nat, j: nat, p: Picks, cutoff: int, r: RequestId)
    requires Run(dbs) && 0 < i <= j < |dbs| && Picked(dbs[j], p, cutoff) && cutoff <= dbs[i].now
    requires r in dbs[i].requests && !(r in dbs[i - 1].requests && dbs[i - 1].requests[r] == dbs[i].requests[r])
    ensures r !in p.attempts && r !in p.requests
  {
    StampsOnlyGrow(dbs, i - 1, i - 1, r);
    LinkStamps(dbs, i);
    StampsOnlyGrow(dbs, i, j, r);
    assert !Stale(Seeing(dbs[j], p.tasks1), r, cutoff) && !Stale(Seeing(dbs[j], p.tasks2), r, cutoff);
  }

  /**
    Nor does it decide billing before its time, or twice: a request that finished at or
    after the cutoff, or whose billing was ever more than pending, is in no later batch.
   */
  lemma FreshBillingIsSpared(dbs: seq<Db>, i: nat, j: nat, p: Picks, cutoff: int, r: RequestId)
    requires Run(dbs) && i <= j < |dbs| && Picked(dbs[j], p, cutoff) && r in dbs[i].requests
    requires (dbs[i].requests[r].finishedAt.Some? && cutoff <= dbs[i].requests[r].finishedAt.value)
             || !dbs[i].requests[r].billing.Pending?
    ensures r !in p.billing
  {
    RunEvolves(dbs, i, j);
    assert RequestEvolves(dbs[i].requests[r], dbs[j].requests[r]);
    assert !StaleBilling(dbs[j], r, cutoff);
  }

  // ---- Billing -----------------------------------------------------------------------------

  lemma StepKeepsLedger(db: Db, a: Action)
    requires Enabled(db, a)
    ensures db.ledger <= Step(db, a).ledger
  {
  }

  lemma {:induction false} LedgerOnlyGrows(dbs: seq<Db>, i: nat, j: nat)
    requires Run(dbs) && i <= j < |dbs|
    ensures dbs[i].ledger <= dbs[j].ledger
  {
    if i < j {
      LedgerOnlyGrows(dbs, i, j - 1);
      assert Linked(dbs, j);
      var a :| Enabled(dbs[j - 1], a) && dbs[j] == Step(dbs[j - 1], a);
      StepKeepsLedger(dbs[j - 1], a);
    }
  }

  /**
    A committed usage record that was inserted is in the ledger for the rest of the run,
    and its request counts as billed; a record that does not match commits nothing.
   */
  lemma UsageIsBilledForEver(dbs: seq<Db>, i: nat, j: nat, r: RequestId, inserted: bool, matches: bool)
    requires Run(dbs) && i < j < |dbs| && dbs[i + 1] == After(dbs[i], SaveUsage(dbs[i], r, inserted, matches))
    ensures !matches ==> dbs[i + 1] == dbs[i]
    ensures matches && inserted ==> r in dbs[j].ledger
    ensures matches && r in dbs[i].requests ==> r in dbs[j].requests && dbs[j].requests[r].billing.Billed?
  {
    LedgerOnlyGrows(dbs, i + 1, j);
    if matches && r in dbs[i].requests {
      BillingAndQualityOnlyMoveOn(dbs, i + 1, j, r);
    }
  }
}
