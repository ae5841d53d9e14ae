/**
  The persisted request, attempt and billing records
  (crates/keycompute-db/src/lifecycle.rs, lines 397-946, with the constraints of
  crates/keycompute-db/migrations/001_init.sql).

  A database transaction is one function from `Db` to `Tx`; its SQL guards are the
  branches, and a violated constraint rolls it back.
 */
module Lifecycle {
  import opened Common

  type RequestId = nat
  type AttemptId = nat

  datatype RequestStatus = Received | Routing | Queued | Running | Succeeded | Failed | TimedOut | Cancelled

  datatype AttemptStatus = InProgress | Done | Erred | Overdue | Stopped | Expired

  datatype BillingStatus = Pending | Billed | BillingFailed | NotApplicable

  datatype TraceQuality = Actual | Derived | Partial

  datatype RouteType = ProviderAccount | PassthroughBinding | Node

  /** States of a node task, as far as reconciliation tells them apart. */
  datatype NodeStatus = NodeActive | NodeSucceeded | NodeFailed | NodeExpired

  datatype ErrorInfo = ErrorInfo(origin: string, category: string, code: string)

  datatype Request = Request(status: RequestStatus, route: Option<RouteType>, error: Option<ErrorInfo>,
                             billing: BillingStatus, quality: TraceQuality,
                             finishedAt: Option<Time>, updatedAt: Time)

  datatype Attempt = Attempt(request: RequestId, no: nat, route: RouteType, task: Option<nat>, lease: Option<nat>,
                             status: AttemptStatus, isFinal: bool, error: Option<ErrorInfo>,
                             endReason: Option<string>, finishedAt: Option<Time>)

  /** `attempts` is in insertion order, an attempt's id being its index; `ledger` holds the billed requests. */
  datatype Db = Db(requests: map<RequestId, Request>, attempts: seq<Attempt>, ledger: set<RequestId>,
                   nodeTasks: Tasks, now: Time)

  datatype Tx<T> = Commit(db: Db, value: T) | Rollback

  predicate Terminal(s: RequestStatus) {
    s.Succeeded? || s.Failed? || s.TimedOut? || s.Cancelled?
  }

  predicate Open(db: Db, r: RequestId) {
    r in db.requests && db.requests[r].finishedAt.None?
  }

  function WithRequest(db: Db, r: RequestId, x: Request): Db {
    db.(requests := db.requests[r := x.(updatedAt := db.now)])
  }

  // ---- Requests and attempts ---------------------------------------------------

  /** Insert a request; an existing one is left as it is. */
  function StartRequest(db: Db, r: RequestId): Db {
    if r in db.requests then db
    else WithRequest(db, r, Request(Received, None, None, Pending, Actual, None, db.now))
  }

  /** A terminal status without a finish time violates the terminal-time constraint. */
  function SetRoute(db: Db, r: RequestId, route: RouteType, status: RequestStatus): Tx<()> {
    if !Open(db, r) then Commit(db, ())
    else if Terminal(status) then Rollback
    else Commit(WithRequest(db, r, db.requests[r].(route := Some(route), status := status)), ())
  }

  datatype AttemptStart = AttemptStart(request: RequestId, route: RouteType, task: Option<nat>, lease: Option<nat>)

  datatype AttemptRef = AttemptRef(id: AttemptId, no: nat)

  function MaxNo(xs: seq<Attempt>, r: RequestId): nat {
    if xs == [] then 0
    else
      var rest := MaxNo(xs[..|xs| - 1], r);
      var x := xs[|xs| - 1];
      if x.request == r && x.no > rest then x.no else rest
  }

  predicate HasLease(x: Attempt, task: nat, lease: nat) {
    x.task == Some(task) && x.lease == Some(lease)
  }

  /** The attempt already started for a task and lease, whichever request it belongs to. */
  function FindLease(xs: seq<Attempt>, task: nat, lease: nat): (i: Option<AttemptId>)
    ensures i.Some? ==> i.value < |xs| && HasLease(xs[i.value], task, lease)
    ensures i.None? ==> forall j :: 0 <= j < |xs| ==> !HasLease(xs[j], task, lease)
  {
    if xs == [] then None
    else
      var i := FindLease(xs[..|xs| - 1], task, lease);
      if i.Some? then i
      else if HasLease(xs[|xs| - 1], task, lease) then Some(|xs| - 1)
      else None
  }

  /** Node attempts name a task and a lease, other attempts neither. */
  predicate TargetOk(s: AttemptStart) {
    if s.route.Node? then s.task.Some? && s.lease.Some? else s.task.None? && s.lease.None?
  }

  function NewAttempt(db: Db, s: AttemptStart): Attempt {
    Attempt(s.request, MaxNo(db.attempts, s.request) + 1, s.route, s.task, s.lease, InProgress, false, None, None, None)
  }

  function StartAttempt(db: Db, s: AttemptStart): Tx<AttemptRef> {
    if !Open(db, s.request) then Rollback
    else
      var existing := if s.route.Node? && s.task.Some? && s.lease.Some?
                      then FindLease(db.attempts, s.task.value, s.lease.value) else None;
      if existing.Some? then Commit(db, AttemptRef(existing.value, db.attempts[existing.value].no))
      else if !TargetOk(s) then Rollback
      else
        var x := NewAttempt(db, s);
        Commit(WithRequest(db, s.request, db.requests[s.request].(status := Running)).(attempts := db.attempts + [x]),
               AttemptRef(|db.attempts|, x.no))
  }

  datatype AttemptFinish = AttemptFinish(id: AttemptId, request: RequestId, attemptStatus: AttemptStatus,
                                         requestStatus: RequestStatus, isFinal: bool, error: Option<ErrorInfo>,
                                         endReason: Option<string>, billing: BillingStatus, at: Time)

  predicate HasFinal(xs: seq<Attempt>, r: RequestId) {
    exists i :: 0 <= i < |xs| && xs[i].request == r && xs[i].isFinal
  }

  /** Billing facts already established survive a terminal update. */
  function SettledBilling(current: BillingStatus, proposed: BillingStatus): BillingStatus {
    if current.Billed? || current.BillingFailed? then current else proposed
  }

  function Degrade(q: TraceQuality, degraded: bool): TraceQuality {
    if degraded then Partial else q
  }

  function DegradeRequest(db: Db, r: RequestId, degraded: bool): Db
    requires r in db.requests
  {
    if degraded then WithRequest(db, r, db.requests[r].(quality := Partial)) else db
  }

  /** The request half of finishing an attempt, once the attempt row is closed. */
  function FinishRequestPart(db: Db, f: AttemptFinish, flushFailed: bool): Db
    requires f.request in db.requests
  {
    var q := db.requests[f.request];
    if q.finishedAt.Some? then DegradeRequest(db, f.request, flushFailed)
    else if Terminal(f.requestStatus) then
      WithRequest(db, f.request,
                  q.(status := f.requestStatus, error := f.error, billing := SettledBilling(q.billing, f.billing),
                     finishedAt := Some(f.at), quality := Degrade(q.quality, flushFailed)))
    else
      WithRequest(db, f.request, q.(status := f.requestStatus, quality := Degrade(q.quality, flushFailed)))
  }

  predicate FinishAllowed(f: AttemptFinish) {
    !f.attemptStatus.InProgress? && (f.isFinal || !Terminal(f.requestStatus))
  }

  function Closed(x: Attempt, f: AttemptFinish): Attempt {
    x.(status := f.attemptStatus, isFinal := f.isFinal, error := f.error, endReason := f.endReason,
       finishedAt := Some(f.at))
  }

  predicate OwnAttempt(db: Db, f: AttemptFinish) {
    f.id < |db.attempts| && db.attempts[f.id].request == f.request
  }

  function FinishAttempt(db: Db, f: AttemptFinish, flushFailed: bool): Tx<()> {
    if !FinishAllowed(f) || f.request !in db.requests || !OwnAttempt(db, f) then Rollback
    else
      var x := db.attempts[f.id];
      if x.finishedAt.None? then
        if f.isFinal && HasFinal(db.attempts, f.request) then Rollback
        else Commit(FinishRequestPart(db.(attempts := db.attempts[f.id := Closed(x, f)]), f, flushFailed), ())
      else if x.status == f.attemptStatus && x.isFinal == f.isFinal then
        Commit(DegradeRequest(db, f.request, flushFailed), ())
      else Rollback
  }

  datatype RequestFinish = RequestFinish(request: RequestId, status: RequestStatus, error: Option<ErrorInfo>,
                                         billing: BillingStatus, at: Time)

  predicate HasAttempt(xs: seq<Attempt>, r: RequestId) {
    exists i :: 0 <= i < |xs| && xs[i].request == r
  }

  /** A request routed to an account but never attempted has an incomplete trace. */
  predicate Unattempted(db: Db, r: RequestId)
    requires r in db.requests
  {
    && db.requests[r].route in {Some(ProviderAccount), Some(PassthroughBinding)}
    && !HasAttempt(db.attempts, r)
  }

  function FinishRequest(db: Db, f: RequestFinish, flushFailed: bool): Tx<()> {
    if !Terminal(f.status) then Rollback
    else if Open(db, f.request) then
      var q := db.requests[f.request];
      Commit(WithRequest(db, f.request,
                         q.(status := f.status, error := f.error, billing := SettledBilling(q.billing, f.billing),
                            finishedAt := Some(f.at),
                            quality := Degrade(q.quality, flushFailed || Unattempted(db, f.request)))), ())
    else if f.request in db.requests && db.requests[f.request].status == f.status then Commit(db, ())
    else Rollback
  }

  function MarkPartial(db: Db, r: RequestId): Tx<()> {
    if r in db.requests then Commit(DegradeRequest(db, r, true), ()) else Rollback
  }

  // ---- Billing -------------------------------------------------------------------

  function MarkBilled(db: Db, r: RequestId): Db {
    if r in db.requests then WithRequest(db, r, db.requests[r].(billing := Billed)) else db
  }

  function MarkBillingFailed(db: Db, r: RequestId): Db {
    if r in db.requests && db.requests[r].billing.Pending? then WithRequest(db, r, db.requests[r].(billing := BillingFailed))
    else db
  }

  /** The ledger row and the billing status are written in one transaction. */
  function SaveUsage(db: Db, r: RequestId, inserted: bool, matches: bool): Tx<()> {
    if !matches then Rollback
    else Commit(MarkBilled(if inserted then db.(ledger := db.ledger + {r}) else db, r), ())
  }

  // ---- Reconciliation --------------------------------------------------------------

  function TaskStatus(db: Db, r: RequestId): Option<NodeStatus> {
    if r in db.nodeTasks then Some(db.nodeTasks[r]) else None
  }

  /** Open, not touched since the cutoff, and not waiting for an unfinished node task. */
  predicate Stale(db: Db, r: RequestId, cutoff: int) {
    && Open(db, r) && db.requests[r].updatedAt < cutoff
    && (db.requests[r].route != Some(Node) || TaskStatus(db, r) != Some(NodeActive))
  }

  datatype Verdict = Verdict(request: RequestStatus, attempt: AttemptStatus, requestError: ErrorInfo,
                             attemptError: Option<ErrorInfo>, endReason: string)

  function Judge(db: Db, r: RequestId): Verdict
    requires r in db.requests
  {
    if db.requests[r].route != Some(Node) then
      var e := ErrorInfo("gateway", "timeout", "trace_stale_reconciled");
      Verdict(TimedOut, Overdue, e, Some(e), "timeout")
    else
      match TaskStatus(db, r)
      case Some(NodeSucceeded) =>
        Verdict(Failed, Done, ErrorInfo("gateway", "internal", "node_client_response_missing"), None, "completed")
      case Some(NodeFailed) =>
        var e := ErrorInfo("node", "node_failed", "node_task_failed");
        Verdict(Failed, Erred, e, Some(e), "upstream_error")
      case Some(NodeExpired) =>
        var e := ErrorInfo("node", "node_expired", "node_task_expired");
        Verdict(TimedOut, Expired, e, Some(e), "timeout")
      case _ =>
        var e := ErrorInfo("node", "node_expired", "node_task_expired");
        Verdict(TimedOut, Overdue, e, Some(e), "timeout")
  }

  /** No open attempt of the same request has a higher number. */
  predicate LatestOpen(xs: seq<Attempt>, i: AttemptId)
    requires i < |xs|
  {
    && xs[i].finishedAt.None?
    && forall j :: 0 <= j < |xs| && xs[j].request == xs[i].request && xs[j].finishedAt.None? ==> xs[j].no <= xs[i].no
  }

  function ReconciledAttempt(db: Db, i: AttemptId): Attempt
    requires i < |db.attempts| && db.attempts[i].request in db.requests
  {
    var x := db.attempts[i];
    var v := Judge(db, x.request);
    x.(status := v.attempt, error := v.attemptError, endReason := Some(v.endReason), finishedAt := Some(db.now),
       isFinal := x.isFinal || (LatestOpen(db.attempts, i) && !HasFinal(db.attempts, x.request)))
  }

  type Tasks = map<RequestId, NodeStatus>

  /** The database with the node tasks that a statement saw. */
  function Seeing(db: Db, tasks: Tasks): Db {
    db.(nodeTasks := tasks)
  }

  /** First statement: close the open attempts of the requests it found stale. */
  function ReconcileAttempts(db: Db, stale: set<RequestId>, tasks: Tasks): Db
    requires forall r :: r in stale ==> r in db.requests
  {
    db.(attempts := seq(|db.attempts|, i requires 0 <= i < |db.attempts| =>
                          if db.attempts[i].request in stale && db.attempts[i].finishedAt.None?
                          then ReconciledAttempt(Seeing(db, tasks), i) else db.attempts[i]))
  }

  function ReconciledRequest(db: Db, r: RequestId): Request
    requires r in db.requests
  {
    var v := Judge(db, r);
    var q := db.requests[r];
    q.(status := v.request, error := Some(v.requestError), quality := Partial,
       billing := SettledBilling(q.billing, NotApplicable), finishedAt := Some(db.now), updatedAt := db.now)
  }

  /** Second statement: terminate the requests it found stale. */
  function ReconcileRequests(db: Db, stale: set<RequestId>, tasks: Tasks): Db
    requires forall r :: r in stale ==> r in db.requests
  {
    db.(requests := map r | r in db.requests ::
          if r in stale then ReconciledRequest(Seeing(db, tasks), r) else db.requests[r])
  }

  /** Finished before the cutoff with billing still pending. */
  predicate StaleBilling(db: Db, r: RequestId, cutoff: int) {
    && r in db.requests && db.requests[r].billing.Pending?
    && db.requests[r].finishedAt.Some? && db.requests[r].finishedAt.value < cutoff
  }

  /** Third statement: decide stale pending billing by the ledger. */
  function ReconcileBilling(db: Db, stale: set<RequestId>): Db
    requires forall r :: r in stale ==> r in db.requests
  {
    db.(requests := map r | r in db.requests ::
          if r in stale then db.requests[r].(billing := if r in db.ledger then Billed else BillingFailed, updatedAt := db.now)
          else db.requests[r])
  }

  /**
    What the three statements picked, and the node tasks that the first two saw.  Each
    repeats the stale query for itself: batches are limited, ties are broken freely, rows
    locked by others are skipped, and tasks change in between without touching a request.
    A picked request stays locked until the commit, so its own row is the one picked.
   */
  datatype Picks = Picks(attempts: set<RequestId>, requests: set<RequestId>, billing: set<RequestId>,
                         tasks1: Tasks, tasks2: Tasks)

  predicate Picked(db: Db, p: Picks, cutoff: int) {
    && (forall r :: r in p.attempts ==> Stale(Seeing(db, p.tasks1), r, cutoff))
    && (forall r :: r in p.requests ==> Stale(Seeing(db, p.tasks2), r, cutoff))
    && (forall r :: r in p.billing ==> StaleBilling(db, r, cutoff))
  }

  function Reconcile(db: Db, p: Picks, cutoff: int): Db
    requires Picked(db, p, cutoff)
  {
    ReconcileBilling(ReconcileRequests(ReconcileAttempts(db, p.attempts, p.tasks1), p.requests, p.tasks2), p.billing)
  }
}
