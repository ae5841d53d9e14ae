/** What every interleaving of the lifecycle transactions keeps. */
module LifecycleSafety {
  import opened Common
  import opened Lifecycle

  // ---- Runs ----------------------------------------------------------------------

  datatype Action =
    | DoStartRequest(r: RequestId)
    | DoSetRoute(r: RequestId, route: RouteType, status: RequestStatus)
    | DoStartAttempt(start: AttemptStart)
    | DoFinishAttempt(af: AttemptFinish, flushFailed: bool)
    | DoFinishRequest(rf: RequestFinish, flushFailed: bool)
    | DoMarkPartial(r: RequestId)
    | DoMarkBilled(r: RequestId)
    | DoMarkBillingFailed(r: RequestId)
    | DoSaveUsage(r: RequestId, inserted: bool, matches: bool)
    | DoReconcile(picks: Picks, cutoff: int)
    | NodeTaskMoves(r: RequestId, task: NodeStatus)
    | Tick(elapsed: Duration)

  predicate Enabled(db: Db, a: Action) {
    a.DoReconcile? ==> Picked(db, a.picks, a.cutoff)
  }

  function After<T>(db: Db, tx: Tx<T>): Db {
    if tx.Commit? then tx.db else db
  }

  function Step(db: Db, a: Action): Db
    requires Enabled(db, a)
  {
    match a
    case DoStartRequest(r) => StartRequest(db, r)
    case DoSetRoute(r, route, status) => After(db, SetRoute(db, r, route, status))
    case DoStartAttempt(start) => After(db, StartAttempt(db, start))
    case DoFinishAttempt(af, flushFailed) => After(db, FinishAttempt(db, af, flushFailed))
    case DoFinishRequest(rf, flushFailed) => After(db, FinishRequest(db, rf, flushFailed))
    case DoMarkPartial(r) => After(db, MarkPartial(db, r))
    case DoMarkBilled(r) => MarkBilled(db, r)
    case DoMarkBillingFailed(r) => MarkBillingFailed(db, r)
    case DoSaveUsage(r, inserted, matches) => After(db, SaveUsage(db, r, inserted, matches))
    case DoReconcile(picks, cutoff) => Reconcile(db, picks, cutoff)
    case NodeTaskMoves(r, task) => db.(nodeTasks := db.nodeTasks[r := task])
    case Tick(d) => db.(now := db.now + d)
  }

  ghost predicate Next(db: Db, db': Db) {
    exists a :: Enabled(db, a) && db' == Step(db, a)
  }

  /** State i of the sequence follows from the one before. */
  ghost predicate Linked(dbs: seq<Db>, i: nat)
    requires 0 < i < |dbs|
  {
    Next(dbs[i - 1], dbs[i])
  }

  ghost predicate Run(dbs: seq<Db>) {
    && |dbs| > 0
    && dbs[0].requests == map[] && dbs[0].attempts == [] && dbs[0].ledger == {}
    && (forall i :: 0 < i < |dbs| ==> Linked(dbs, i))
  }

  // ---- Requests --------------------------------------------------------------------

  /** Terminal exactly when finished, and `not_applicable` only when finished. */
  predicate RequestOk(q: Request) {
    && (Terminal(q.status) <==> q.finishedAt.Some?)
    && (q.billing.NotApplicable? ==> q.finishedAt.Some?)
  }

  /** Billing moves up: pending, then failed or not applicable, then billed. */
  predicate BillingMoves(a: BillingStatus, b: BillingStatus) {
    a == b || a.Pending? || b.Billed?
  }

  /** What later steps can no longer change about a request. */
  predicate RequestEvolves(q: Request, q': Request) {
    && (q.finishedAt.Some? ==>
          q'.status == q.status && q'.error == q.error && q'.finishedAt == q.finishedAt && q'.route == q.route)
    && (q.quality.Partial? ==> q'.quality.Partial?)
    && BillingMoves(q.billing, q'.billing)
  }

  predicate RequestsOk(db: Db) {
    forall r :: r in db.requests ==> RequestOk(db.requests[r])
  }

  predicate RequestsEvolve(db: Db, db': Db) {
    forall r :: r in db.requests ==> r in db'.requests && RequestEvolves(db.requests[r], db'.requests[r])
  }

  lemma OneRequestChanges(db: Db, db': Db, r: RequestId)
    requires RequestsOk(db) && r in db'.requests && RequestOk(db'.requests[r])
    requires db'.requests == db.requests[r := db'.requests[r]]
    requires r in db.requests ==> RequestEvolves(db.requests[r], db'.requests[r])
    ensures RequestsOk(db') && RequestsEvolve(db, db')
  {
  }

  lemma ReconcileKeepsRequests(db: Db, p: Picks, cutoff: int)
    requires RequestsOk(db) && Picked(db, p, cutoff)
    ensures RequestsOk(Reconcile(db, p, cutoff)) && RequestsEvolve(db, Reconcile(db, p, cutoff))
  {
  }

  lemma FinishKeepsRequests(db: Db, f: AttemptFinish, flushFailed: bool)
    requires RequestsOk(db)
    ensures var db' := After(db, FinishAttempt(db, f, flushFailed)); RequestsOk(db') && RequestsEvolve(db, db')
  {
    var db' := After(db, FinishAttempt(db, f, flushFailed));
    if db'.requests != db.requests {
      OneRequestChanges(db, db', f.request);
    }
  }

  lemma StepKeepsRequests(db: Db, a: Action)
    requires RequestsOk(db) && Enabled(db, a)
    ensures RequestsOk(Step(db, a)) && RequestsEvolve(db, Step(db, a))
  {
    match a
    case DoReconcile(picks, cutoff) => ReconcileKeepsRequests(db, picks, cutoff);
    case DoFinishAttempt(af, flushFailed) => FinishKeepsRequests(db, af, flushFailed);
    case DoFinishRequest(rf, flushFailed) => FinishRequestKeepsRequests(db, rf, flushFailed);
    case DoStartAttempt(start) => StartKeepsRequests(db, start);
    case NodeTaskMoves(_, _) =>
    case Tick(_) =>
    case _ => OtherKeepsRequests(db, a, a.r);
  }

  lemma FinishRequestKeepsRequests(db: Db, rf: RequestFinish, flushFailed: bool)
    requires RequestsOk(db)
    ensures var db' := Step(db, DoFinishRequest(rf, flushFailed)); RequestsOk(db') && RequestsEvolve(db, db')
  {
    var db' := Step(db, DoFinishRequest(rf, flushFailed));
    if db'.requests != db.requests {
      OneRequestChanges(db, db', rf.request);
    }
  }

  lemma StartKeepsRequests(db: Db, start: AttemptStart)
    requires RequestsOk(db)
    ensures var db' := Step(db, DoStartAttempt(start)); RequestsOk(db') && RequestsEvolve(db, db')
  {
    var db' := Step(db, DoStartAttempt(start));
    if db'.requests != db.requests {
      OneRequestChanges(db, db', start.request);
    }
  }

  lemma OtherKeepsRequests(db: Db, a: Action, r: RequestId)
    requires RequestsOk(db) && Enabled(db, a) && !a.DoReconcile? && !a.DoFinishAttempt? && !a.Tick?
    requires !a.DoFinishRequest? && !a.DoStartAttempt? && r == a.r
    ensures RequestsOk(Step(db, a)) && RequestsEvolve(db, Step(db, a))
  {
    var db' := Step(db, a);
    if db'.requests != db.requests {
      OneRequestChanges(db, db', r);
    }
  }

  // ---- Attempts ---------------------------------------------------------------------

  function Count(xs: seq<Attempt>, r: RequestId): nat {
    if xs == [] then 0 else Count(xs[..|xs| - 1], r) + if xs[|xs| - 1].request == r then 1 else 0
  }

  /** Each attempt carries its rank among the attempts of its request. */
  predicate Numbered(xs: seq<Attempt>) {
    forall i :: 0 <= i < |xs| ==> xs[i].no == Count(xs[..i + 1], xs[i].request)
  }

  predicate OneFinal(xs: seq<Attempt>) {
    forall i, j :: 0 <= i < j < |xs| && xs[i].request == xs[j].request ==> !(xs[i].isFinal && xs[j].isFinal)
  }

  predicate LeasesUnique(xs: seq<Attempt>) {
    forall i, j :: 0 <= i < j < |xs| && xs[i].route.Node? && xs[j].route.Node? ==>
      !(xs[i].task == xs[j].task && xs[i].lease == xs[j].lease)
  }

  predicate AttemptOk(db: Db, x: Attempt) {
    && x.request in db.requests
    && (x.status.InProgress? <==> x.finishedAt.None?)
    && (x.isFinal ==> x.finishedAt.Some?)
    && TargetOk(AttemptStart(x.request, x.route, x.task, x.lease))
  }

  predicate AttemptsOk(db: Db) {
    && (forall i :: 0 <= i < |db.attempts| ==> AttemptOk(db, db.attempts[i]))
    && Numbered(db.attempts) && OneFinal(db.attempts) && LeasesUnique(db.attempts)
  }

  predicate SameIdentity(x: Attempt, x': Attempt) {
    x'.request == x.request && x'.no == x.no && x'.route == x.route && x'.task == x.task && x'.lease == x.lease
  }

  /** An attempt keeps its identity, and once finished it is frozen. */
  predicate AttemptEvolves(x: Attempt, x': Attempt) {
    SameIdentity(x, x') && (x.finishedAt.Some? ==> x' == x)
  }

  predicate AttemptsEvolve(xs: seq<Attempt>, xs': seq<Attempt>) {
    |xs| <= |xs'| && forall i :: 0 <= i < |xs| ==> AttemptEvolves(xs[i], xs'[i])
  }

  lemma {:induction false} CountPrefix(xs: seq<Attempt>, r: RequestId, i: nat, j: nat)
    requires i <= j <= |xs|
    ensures Count(xs[..i], r) <= Count(xs[..j], r)
    ensures i < j && xs[j - 1].request == r ==> Count(xs[..i], r) < Count(xs[..j], r)
  {
    if i < j {
      CountPrefix(xs, r, i, j - 1);
      assert xs[..j][..j - 1] == xs[..j - 1];
    }
  }

  /** Numbers grow with insertion, so they are distinct within a request. */
  lemma NumbersGrow(xs: seq<Attempt>, i: nat, j: nat)
    requires Numbered(xs) && i < j < |xs| && xs[i].request == xs[j].request
    ensures xs[i].no < xs[j].no
  {
    CountPrefix(xs, xs[i].request, i + 1, j + 1);
  }

  lemma {:induction false} MaxIsCount(xs: seq<Attempt>, r: RequestId)
    requires Numbered(xs)
    ensures MaxNo(xs, r) == Count(xs, r)
  {
    if xs != [] {
      var ys := xs[..|xs| - 1];
      assert xs[..|xs|] == xs;
      forall i | 0 <= i < |ys|
        ensures ys[i].no == Count(ys[..i + 1], ys[i].request)
      {
        assert ys[..i + 1] == xs[..i + 1];
      }
      MaxIsCount(ys, r);
      if xs[|xs| - 1].request == r {
        assert xs[|xs| - 1].no == Count(xs, r) == Count(ys, r) + 1;
      }
    }
  }

  lemma {:induction false} CountByIdentity(xs: seq<Attempt>, ys: seq<Attempt>, r: RequestId)
    requires |xs| == |ys| && forall i :: 0 <= i < |xs| ==> SameIdentity(xs[i], ys[i])
    ensures Count(xs, r) == Count(ys, r)
  {
    if xs != [] {
      CountByIdentity(xs[..|xs| - 1], ys[..|ys| - 1], r);
    }
  }

  /** Changing attempts without touching their identity keeps numbers and leases. */
  lemma IdentityKeepsNumbers(xs: seq<Attempt>, ys: seq<Attempt>)
    requires |xs| == |ys| && (forall i :: 0 <= i < |xs| ==> SameIdentity(xs[i], ys[i]))
    requires Numbered(xs) && LeasesUnique(xs)
    ensures Numbered(ys) && LeasesUnique(ys)
  {
    forall i | 0 <= i < |ys|
      ensures ys[i].no == Count(ys[..i + 1], ys[i].request)
    {
      CountByIdentity(xs[..i + 1], ys[..i + 1], ys[i].request);
    }
  }

  /** A further attempt with the next number continues the numbering. */
  lemma NumberingContinues(xs: seq<Attempt>, x: Attempt)
    requires Numbered(xs) && x.no == Count(xs, x.request) + 1
    ensures Numbered(xs + [x])
  {
    var ys := xs + [x];
    forall i | 0 <= i < |ys|
      ensures ys[i].no == Count(ys[..i + 1], ys[i].request)
    {
      if i < |xs| {
        assert ys[..i + 1] == xs[..i + 1];
      } else {
        assert ys[..i + 1] == ys && ys[..|ys| - 1] == xs;
      }
    }
  }

  /** A new row that is not final and has no known lease keeps the rest. */
  lemma AddingKeepsAttempts(db: Db, db': Db, x: Attempt)
    requires AttemptsOk(db) && db'.attempts == db.attempts + [x] && AttemptOk(db', x) && !x.isFinal
    requires x.no == Count(db.attempts, x.request) + 1
    requires forall r :: r in db.requests ==> r in db'.requests
    requires x.route.Node? ==> forall i :: 0 <= i < |db.attempts| ==> !HasLease(db.attempts[i], x.task.value, x.lease.value)
    ensures AttemptsOk(db') && AttemptsEvolve(db.attempts, db'.attempts)
  {
    NumberingContinues(db.attempts, x);
    forall i | 0 <= i < |db'.attempts|
      ensures AttemptOk(db', db'.attempts[i])
    {
      assert i < |db.attempts| ==> AttemptOk(db, db.attempts[i]);
    }
  }

  lemma StartKeepsAttempts(db: Db, start: AttemptStart)
    requires AttemptsOk(db)
    ensures AttemptsOk(After(db, StartAttempt(db, start)))
    ensures AttemptsEvolve(db.attempts, After(db, StartAttempt(db, start)).attempts)
  {
    var db' := After(db, StartAttempt(db, start));
    if |db'.attempts| > |db.attempts| {
      MaxIsCount(db.attempts, start.request);
      AddingKeepsAttempts(db, db', NewAttempt(db, start));
    } else {
      OtherRowsKeepAttempts(db, db');
    }
  }

  lemma OtherRowsKeepAttempts(db: Db, db': Db)
    requires AttemptsOk(db) && db'.attempts == db.attempts
    requires forall r :: r in db.requests ==> r in db'.requests
    ensures AttemptsOk(db') && AttemptsEvolve(db.attempts, db'.attempts)
  {
    assert forall i :: 0 <= i < |db'.attempts| ==> AttemptOk(db, db.attempts[i]) && AttemptOk(db', db'.attempts[i]);
  }

  lemma FinishKeepsAttempts(db: Db, f: AttemptFinish, flushFailed: bool)
    requires AttemptsOk(db)
    ensures AttemptsOk(After(db, FinishAttempt(db, f, flushFailed)))
    ensures AttemptsEvolve(db.attempts, After(db, FinishAttempt(db, f, flushFailed)).attempts)
  {
    var db' := After(db, FinishAttempt(db, f, flushFailed));
    if FinishAttempt(db, f, flushFailed).Commit? && db.attempts[f.id].finishedAt.None? {
      ClosingKeepsAttempts(db, f);
      OtherRowsKeepAttempts(db.(attempts := db.attempts[f.id := Closed(db.attempts[f.id], f)]), db');
    } else {
      OtherRowsKeepAttempts(db, db');
    }
  }

  lemma ClosingKeepsAttempts(db: Db, f: AttemptFinish)
    requires AttemptsOk(db) && FinishAllowed(f) && OwnAttempt(db, f) && db.attempts[f.id].finishedAt.None?
    requires f.isFinal ==> !HasFinal(db.attempts, f.request)
    ensures AttemptsOk(db.(attempts := db.attempts[f.id := Closed(db.attempts[f.id], f)]))
  {
    var xs := db.attempts;
    var ys := xs[f.id := Closed(xs[f.id], f)];
    IdentityKeepsNumbers(xs, ys);
    forall i, j | 0 <= i < j < |ys| && ys[i].request == ys[j].request
      ensures !(ys[i].isFinal && ys[j].isFinal)
    {
      assert i != f.id && j != f.id ==> !(xs[i].isFinal && xs[j].isFinal);
    }
  }

  /** Only the row numbered last becomes final, and no row ever stops being so. */
  lemma ReconcileKeepsFinal(db: Db, p: Picks, cutoff: int, i: nat, j: nat)
    requires AttemptsOk(db) && Picked(db, p, cutoff) && i < j < |db.attempts|
    requires db.attempts[i].request == db.attempts[j].request
    ensures var ys := Reconcile(db, p, cutoff).attempts; !(ys[i].isFinal && ys[j].isFinal)
  {
    NumbersGrow(db.attempts, i, j);
  }

  lemma ReconcileKeepsRow(db: Db, p: Picks, cutoff: int, i: nat)
    requires AttemptsOk(db) && Picked(db, p, cutoff) && i < |db.attempts|
    ensures var db' := Reconcile(db, p, cutoff);
            AttemptEvolves(db.attempts[i], db'.attempts[i]) && AttemptOk(db', db'.attempts[i])
  {
    assert AttemptOk(db, db.attempts[i]);
  }

  lemma ReconcileKeepsAttempts(db: Db, p: Picks, cutoff: int)
    requires AttemptsOk(db) && Picked(db, p, cutoff)
    ensures AttemptsOk(Reconcile(db, p, cutoff))
    ensures AttemptsEvolve(db.attempts, Reconcile(db, p, cutoff).attempts)
  {
    var db' := Reconcile(db, p, cutoff);
    var xs, ys := db.attempts, db'.attempts;
    forall i | 0 <= i < |xs|
      ensures AttemptEvolves(xs[i], ys[i]) && AttemptOk(db', ys[i])
    {
      ReconcileKeepsRow(db, p, cutoff, i);
    }
    IdentityKeepsNumbers(xs, ys);
    forall i, j | 0 <= i < j < |ys| && ys[i].request == ys[j].request
      ensures !(ys[i].isFinal && ys[j].isFinal)
    {
      ReconcileKeepsFinal(db, p, cutoff, i, j);
    }
  }

  lemma StepKeepsAttempts(db: Db, a: Action)
    requires AttemptsOk(db) && Enabled(db, a)
    ensures AttemptsOk(Step(db, a)) && AttemptsEvolve(db.attempts, Step(db, a).attempts)
  {
    match a
    case DoStartAttempt(start) => StartKeepsAttempts(db, start);
    case DoFinishAttempt(af, flushFailed) => FinishKeepsAttempts(db, af, flushFailed);
    case DoReconcile(picks, cutoff) => ReconcileKeepsAttempts(db, picks, cutoff);
    case _ => OtherRowsKeepAttempts(db, Step(db, a));
  }

  // ---- Whole runs ---------------------------------------------------------------------

  predicate Sound(db: Db) {
    RequestsOk(db) && AttemptsOk(db)
  }

  /** What can have happened between two states: rows only moved forward. */
  predicate Evolves(db: Db, db': Db) {
    RequestsEvolve(db, db') && AttemptsEvolve(db.attempts, db'.attempts)
  }

  lemma StepIsSound(db: Db, a: Action)
    requires Sound(db) && Enabled(db, a)
    ensures Sound(Step(db, a)) && Evolves(db, Step(db, a))
  {
    StepKeepsRequests(db, a);
    StepKeepsAttempts(db, a);
  }

  lemma NextIsSound(db: Db, db': Db)
    requires Sound(db) && Next(db, db')
    ensures Sound(db') && Evolves(db, db')
  {
    var a :| Enabled(db, a) && db' == Step(db, a);
    StepIsSound(db, a);
  }

  lemma LinkIsSound(dbs: seq<Db>, i: nat)
    requires Run(dbs) && 0 < i < |dbs| && Sound(dbs[i - 1])
    ensures Sound(dbs[i]) && Evolves(dbs[i - 1], dbs[i])
  {
    assert Linked(dbs, i);
    NextIsSound(dbs[i - 1], dbs[i]);
  }

  lemma EvolvesIsTransitive(a: Db, b: Db, c: Db)
    requires Evolves(a, b) && Evolves(b, c)
    ensures Evolves(a, c)
  {
    forall k | 0 <= k < |a.attempts|
      ensures AttemptEvolves(a.attempts[k], c.attempts[k])
    {
      assert AttemptEvolves(a.attempts[k], b.attempts[k]) && AttemptEvolves(b.attempts[k], c.attempts[k]);
    }
    forall r | r in a.requests
      ensures r in c.requests && RequestEvolves(a.requests[r], c.requests[r])
    {
      assert RequestEvolves(a.requests[r], b.requests[r]) && RequestEvolves(b.requests[r], c.requests[r]);
    }
  }

  lemma {:induction false} RunIsSound(dbs: seq<Db>, i: nat)
    requires Run(dbs) && i < |dbs|
    ensures Sound(dbs[i])
  {
    if i > 0 {
      RunIsSound(dbs, i - 1);
      LinkIsSound(dbs, i);
    }
  }

  lemma {:induction false} RunEvolves(dbs: seq<Db>, i: nat, j: nat)
    requires Run(dbs) && i <= j < |dbs|
    ensures Evolves(dbs[i], dbs[j])
  {
    if i < j {
      RunEvolves(dbs, i, j - 1);
      RunIsSound(dbs, j - 1);
      LinkIsSound(dbs, j);
      EvolvesIsTransitive(dbs[i], dbs[j - 1], dbs[j]);
    }
  }

  /** Some run ends in this state. */
  ghost predicate Reachable(db: Db) {
    exists dbs :: Run(dbs) && dbs[|dbs| - 1] == db
  }

  lemma RunExtends(dbs: seq<Db>, db: Db)
    requires Run(dbs) && Next(dbs[|dbs| - 1], db)
    ensures Run(dbs + [db]) && (dbs + [db])[|dbs|] == db
  {
    var more := dbs + [db];
    forall i | 0 < i < |more|
      ensures Linked(more, i)
    {
      assert i < |dbs| ==> Linked(dbs, i);
    }
  }

  lemma StepIsReachable(db: Db, a: Action)
    requires Reachable(db) && Enabled(db, a)
    ensures Reachable(Step(db, a)) && Evolves(db, Step(db, a))
  {
    assert Next(db, Step(db, a));
    NextIsReachable(db, Step(db, a));
    ReachableIsSound(db);
    StepIsSound(db, a);
  }

  lemma NextIsReachable(db: Db, db': Db)
    requires Reachable(db) && Next(db, db')
    ensures Reachable(db')
  {
    var dbs :| Run(dbs) && dbs[|dbs| - 1] == db;
    RunExtends(dbs, db');
  }

  lemma ReachableIsSound(db: Db)
    requires Reachable(db)
    ensures Sound(db)
  {
    var dbs :| Run(dbs) && dbs[|dbs| - 1] == db;
    RunIsSound(dbs, |dbs| - 1);
  }

  /** What stays true of one request between two states. */
  lemma RequestMovesOn(db: Db, db': Db, r: RequestId)
    requires Sound(db) && Evolves(db, db') && r in db.requests
    ensures r in db'.requests
    ensures var q, q' := db.requests[r], db'.requests[r];
            && (q.finishedAt.Some? ==> Terminal(q.status) && q'.status == q.status && q'.error == q.error
                                       && q'.finishedAt == q.finishedAt && q'.route == q.route)
            && (q.billing.Billed? ==> q'.billing.Billed?)
            && (q.billing.BillingFailed? ==> q'.billing in {BillingFailed, Billed})
            && (q.billing.NotApplicable? ==> q'.billing in {NotApplicable, Billed} && q.finishedAt.Some?)
            && (q.quality.Partial? ==> q'.quality.Partial?)
  {
    assert RequestOk(db.requests[r]) && RequestEvolves(db.requests[r], db'.requests[r]);
  }

  /**
    The first step that finishes a request decides it: status, error, finish time and
    route never change again, and the status is terminal.
   */
  lemma FirstFinishWins(dbs: seq<Db>, i: nat, j: nat, r: RequestId)
    requires Run(dbs) && i <= j < |dbs| && r in dbs[i].requests && dbs[i].requests[r].finishedAt.Some?
    ensures r in dbs[j].requests && Terminal(dbs[j].requests[r].status)
    ensures var q, q' := dbs[i].requests[r], dbs[j].requests[r];
            q'.status == q.status && q'.error == q.error && q'.finishedAt == q.finishedAt && q'.route == q.route
  {
    RunIsSound(dbs, i);
    RunEvolves(dbs, i, j);
    RequestMovesOn(dbs[i], dbs[j], r);
  }

  /** Billed is for ever, failed can only become billed, and partial is never undone. */
  lemma BillingAndQualityOnlyMoveOn(dbs: seq<Db>, i: nat, j: nat, r: RequestId)
    requires Run(dbs) && i <= j < |dbs| && r in dbs[i].requests
    ensures r in dbs[j].requests
    ensures var q, q' := dbs[i].requests[r], dbs[j].requests[r];
            && (q.billing.Billed? ==> q'.billing.Billed?)
            && (q.billing.BillingFailed? ==> q'.billing in {BillingFailed, Billed})
            && (q.billing.NotApplicable? ==> q'.billing in {NotApplicable, Billed} && q.finishedAt.Some?)
            && (q.quality.Partial? ==> q'.quality.Partial?)
  {
    RunIsSound(dbs, i);
    RunEvolves(dbs, i, j);
    RequestMovesOn(dbs[i], dbs[j], r);
  }

  lemma {:induction false} NumberExists(xs: seq<Attempt>, r: RequestId, k: nat)
    requires Numbered(xs) && 1 <= k <= Count(xs, r)
    ensures exists i :: 0 <= i < |xs| && xs[i].request == r && xs[i].no == k
  {
    var ys := xs[..|xs| - 1];
    assert xs[..|xs|] == xs;
    forall i | 0 <= i < |ys|
      ensures ys[i].no == Count(ys[..i + 1], ys[i].request)
    {
      assert ys[..i + 1] == xs[..i + 1];
    }
    if k <= Count(ys, r) {
      NumberExists(ys, r, k);
      var i :| 0 <= i < |ys| && ys[i].request == r && ys[i].no == k;
      assert xs[i] == ys[i];
    } else {
      assert xs[|xs| - 1].request == r && xs[|xs| - 1].no == k;
    }
  }

  /** The number is given to an attempt of the request. */
  predicate NumberTaken(xs: seq<Attempt>, r: RequestId, k: nat) {
    exists m :: 0 <= m < |xs| && xs[m].request == r && xs[m].no == k
  }

  lemma TakenNumberIsCounted(xs: seq<Attempt>, r: RequestId, m: nat)
    requires Numbered(xs) && m < |xs| && xs[m].request == r
    ensures 1 <= xs[m].no <= Count(xs, r)
  {
    assert xs[..|xs|] == xs && xs[..m + 1][..m] == xs[..m];
    CountPrefix(xs, r, m + 1, |xs|);
  }

  lemma NumberedExactly(xs: seq<Attempt>, r: RequestId, k: nat)
    requires Numbered(xs)
    ensures 1 <= k <= Count(xs, r) <==> NumberTaken(xs, r, k)
  {
    if 1 <= k <= Count(xs, r) {
      NumberExists(xs, r, k);
    }
    if m :| 0 <= m < |xs| && xs[m].request == r && xs[m].no == k {
      TakenNumberIsCounted(xs, r, m);
    }
  }

  /** In every reachable state the attempts of a request are numbered exactly 1..n. */
  lemma AttemptNumbersAreExact(dbs: seq<Db>, i: nat, r: RequestId, k: nat, m: nat, n: nat)
    requires Run(dbs) && i < |dbs|
    ensures 1 <= k <= Count(dbs[i].attempts, r) <==> NumberTaken(dbs[i].attempts, r, k)
    ensures m < n < |dbs[i].attempts| && dbs[i].attempts[m].request == dbs[i].attempts[n].request ==>
              dbs[i].attempts[m].no < dbs[i].attempts[n].no
  {
    RunIsSound(dbs, i);
    NumberedExactly(dbs[i].attempts, r, k);
    if m < n < |dbs[i].attempts| && dbs[i].attempts[m].request == dbs[i].attempts[n].request {
      NumbersGrow(dbs[i].attempts, m, n);
    }
  }

  /** A committed start leaves an attempt of that task and lease under the reference it returns. */
  lemma StartLeavesLease(db: Db, s: AttemptStart)
    requires Sound(db) && s.route.Node? && StartAttempt(db, s).Commit?
    ensures s.task.Some? && s.lease.Some?
    ensures var tx := StartAttempt(db, s);
            && tx.value.id < |tx.db.attempts| && tx.db.attempts[tx.value.id].no == tx.value.no
            && HasLease(tx.db.attempts[tx.value.id], s.task.value, s.lease.value)
  {
  }

  /** A start for a lease that an attempt has returns that attempt. */
  lemma StartFindsLease(db: Db, s: AttemptStart, i: AttemptId)
    requires Sound(db) && Open(db, s.request) && s.route.Node? && s.task.Some? && s.lease.Some?
    requires i < |db.attempts| && HasLease(db.attempts[i], s.task.value, s.lease.value)
    ensures StartAttempt(db, s) == Commit(db, AttemptRef(i, db.attempts[i].no))
  {
    var xs := db.attempts;
    var found := FindLease(xs, s.task.value, s.lease.value);
    assert AttemptOk(db, xs[i]) && AttemptOk(db, xs[found.value]);
  }

  /**
    A node attempt is started once per task and lease: any later start for the same
    pair, on any open request, returns the original attempt and changes nothing.
   */
  lemma RepeatedStartReturnsOriginal(dbs: seq<Db>, i: nat, j: nat, first: AttemptStart, again: AttemptStart)
    requires Run(dbs) && i < j < |dbs|
    requires first.route.Node? && StartAttempt(dbs[i], first).Commit? && dbs[i + 1] == StartAttempt(dbs[i], first).db
    requires again.route.Node? && again.task == first.task && again.lease == first.lease
    requires Open(dbs[j], again.request)
    ensures StartAttempt(dbs[j], again) == Commit(dbs[j], StartAttempt(dbs[i], first).value)
  {
    RunIsSound(dbs, i);
    StartLeavesLease(dbs[i], first);
    RunIsSound(dbs, j);
    RunEvolves(dbs, i + 1, j);
    var ref := StartAttempt(dbs[i], first).value;
    assert AttemptEvolves(dbs[i + 1].attempts[ref.id], dbs[j].attempts[ref.id]);
    StartFindsLease(dbs[j], again, ref.id);
  }

  // ---- Single transactions ----------------------------------------------------------

  /**
    A committed attempt finish closes its own attempt, win or lose, and after a failed
    flush leaves the trace partial on every branch.
   */
  lemma CommittedFinishMeans(db: Db, f: AttemptFinish, flushFailed: bool)
    requires FinishAttempt(db, f, flushFailed).Commit?
    ensures var db' := FinishAttempt(db, f, flushFailed).db;
            && f.request in db'.requests && f.id < |db'.attempts|
            && db'.attempts[f.id].request == f.request && db'.attempts[f.id].finishedAt.Some?
            && db'.attempts[f.id].status == f.attemptStatus && db'.attempts[f.id].isFinal == f.isFinal
            && (flushFailed ==> db'.requests[f.request].quality.Partial?)
            && (db.requests[f.request].finishedAt.Some? ==>
                  db'.requests[f.request] == db.requests[f.request].(quality := db'.requests[f.request].quality,
                                                                     updatedAt := db'.requests[f.request].updatedAt))
  {
  }

  /** Once a finish after a failed flush commits, the trace is partial for the rest of the run. */
  lemma FailedFlushIsPartialForEver(dbs: seq<Db>, i: nat, j: nat, f: AttemptFinish)
    requires Run(dbs) && i < j < |dbs|
    requires FinishAttempt(dbs[i], f, true).Commit? && dbs[i + 1] == FinishAttempt(dbs[i], f, true).db
    ensures f.request in dbs[j].requests && dbs[j].requests[f.request].quality.Partial?
  {
    CommittedFinishMeans(dbs[i], f, true);
    BillingAndQualityOnlyMoveOn(dbs, i + 1, j, f.request);
  }

  /** So it is once a failed flush outside a finish has marked it. */
  lemma MarkedPartialForEver(dbs: seq<Db>, i: nat, j: nat, r: RequestId)
    requires Run(dbs) && i < j < |dbs| && dbs[i + 1] == After(dbs[i], MarkPartial(dbs[i], r))
    ensures r in dbs[i].requests ==> r in dbs[j].requests && dbs[j].requests[r].quality.Partial?
  {
    if r in dbs[i].requests {
      BillingAndQualityOnlyMoveOn(dbs, i + 1, j, r);
    }
  }

  /** A finish of an attempt that is closed already repeats the decision, or is refused. */
  lemma FinishOfClosed(db: Db, g: AttemptFinish, flushFailed: bool)
    requires Sound(db) && FinishAllowed(g) && OwnAttempt(db, g) && db.attempts[g.id].finishedAt.Some?
    ensures var x, tx := db.attempts[g.id], FinishAttempt(db, g, flushFailed);
            && (tx.Commit? <==> x.status == g.attemptStatus && x.isFinal == g.isFinal)
            && (tx.Commit? ==> g.request in db.requests && tx.db == DegradeRequest(db, g.request, flushFailed))
  {
    assert AttemptOk(db, db.attempts[g.id]);
  }

  /**
    The first committed finish of an attempt decides it for the rest of the run: the same
    finish again succeeds and changes no attempt, any other is refused.
   */
  lemma FinishIsDecidedOnce(dbs: seq<Db>, i: nat, j: nat, f: AttemptFinish, ff: bool, g: AttemptFinish, gf: bool)
    requires Run(dbs) && i < j < |dbs|
    requires FinishAttempt(dbs[i], f, ff).Commit? && dbs[i + 1] == FinishAttempt(dbs[i], f, ff).db
    requires g.id == f.id && g.request == f.request && FinishAllowed(g)
    ensures FinishAttempt(dbs[j], g, gf).Commit? <==> g.attemptStatus == f.attemptStatus && g.isFinal == f.isFinal
    ensures FinishAttempt(dbs[j], g, gf).Commit? ==> FinishAttempt(dbs[j], g, gf).db.attempts == dbs[j].attempts
  {
    CommittedFinishMeans(dbs[i], f, ff);
    RunEvolves(dbs, i + 1, j);
    RunIsSound(dbs, j);
    assert AttemptEvolves(dbs[i + 1].attempts[f.id], dbs[j].attempts[f.id]);
    FinishOfClosed(dbs[j], g, gf);
  }

  /**
    The handler's own finish does not keep that promise: after a failed flush the trace
    ends up partial exactly when the request was still open, or partial already.
   */
  lemma HandlerFinishIsPartialIff(db: Db, f: RequestFinish)
    requires FinishRequest(db, f, true).Commit?
    ensures f.request in db.requests && f.request in FinishRequest(db, f, true).db.requests
    ensures FinishRequest(db, f, true).db.requests[f.request].quality.Partial?
       <==> Open(db, f.request) || db.requests[f.request].quality.Partial?
  {
  }

  /** A repeated handler finish with an unreported flush failure that leaves the trace as it was. */
  lemma HandlerFinishCanMissPartial()
    ensures var q := Request(Succeeded, None, None, Pending, Actual, Some(5), 5);
            var db := Db(map[1 := q], [], {}, map[], 9);
            FinishRequest(db, RequestFinish(1, Succeeded, None, Pending, 9), true) == Commit(db, ())
  {
  }
}
