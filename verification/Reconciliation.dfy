/**
  The stale-trace reconciler (crates/keycompute-db/src/lifecycle.rs, lines 869-946).

  Its first two statements evaluate the same limited query, each for itself: over the
  rows and node tasks committed by then, and around the rows that others have locked by
  then.  This module proves exactly when every request it terminates has its attempts
  closed.
 */
module Reconciliation {
  import opened Common
  import opened Lifecycle
  import opened LifecycleSafety

  predicate AllClosed(xs: seq<Attempt>, r: RequestId) {
    forall i :: 0 <= i < |xs| && xs[i].request == r ==> xs[i].finishedAt.Some?
  }

  /** Every request that the second statement terminates has no open attempt left. */
  predicate ClosesAll(db: Db, p: Picks, cutoff: int)
    requires Picked(db, p, cutoff)
  {
    forall r :: r in p.requests ==> AllClosed(Reconcile(db, p, cutoff).attempts, r)
  }

  lemma ClosedIfPicked(db: Db, p: Picks, cutoff: int, r: RequestId)
    requires Picked(db, p, cutoff) && r in p.requests
    ensures AllClosed(Reconcile(db, p, cutoff).attempts, r) <==> r in p.attempts || AllClosed(db.attempts, r)
  {
    var xs, ys := db.attempts, Reconcile(db, p, cutoff).attempts;
    if r !in p.attempts && !AllClosed(xs, r) {
      var i :| 0 <= i < |xs| && xs[i].request == r && xs[i].finishedAt.None?;
      assert ys[i] == xs[i];
    }
  }

  // ---- One evaluation of the query ------------------------------------------------

  function UpdatedAt(db: Db, r: RequestId): Time {
    if r in db.requests then db.requests[r].updatedAt else 0
  }

  /** Stale requests whose rows nobody else has locked. */
  function Eligible(db: Db, cutoff: int, locked: set<RequestId>): set<RequestId> {
    set r | r in db.requests && Stale(db, r, cutoff) && r !in locked
  }

  /** The oldest eligible requests, up to the limit, ties broken freely. */
  predicate Batch(db: Db, cutoff: int, limit: nat, locked: set<RequestId>, pick: set<RequestId>) {
    var e := Eligible(db, cutoff, locked);
    && pick <= e && |pick| <= limit && (|pick| < limit ==> pick == e)
    && (forall r, x :: r in pick && x in e && x !in pick ==> UpdatedAt(db, r) <= UpdatedAt(db, x))
  }

  function UpTo(db: Db, e: set<RequestId>, r: RequestId): set<RequestId> {
    set x | x in e && UpdatedAt(db, x) <= UpdatedAt(db, r)
  }

  function Before(db: Db, e: set<RequestId>, r: RequestId): set<RequestId> {
    set x | x in e && UpdatedAt(db, x) < UpdatedAt(db, r)
  }

  /** The request is eligible, and with all rows as old as it there are at most `limit`. */
  predicate InEveryBatch(db: Db, cutoff: int, limit: nat, locked: set<RequestId>, r: RequestId) {
    var e := Eligible(db, cutoff, locked);
    r in e && |UpTo(db, e, r)| <= limit
  }

  /** The request is not eligible, or `limit` eligible rows are older. */
  predicate InNoBatch(db: Db, cutoff: int, limit: nat, locked: set<RequestId>, r: RequestId) {
    var e := Eligible(db, cutoff, locked);
    r in e ==> |Before(db, e, r)| >= limit
  }

  lemma {:induction false} SubsetSize(a: set<RequestId>, b: set<RequestId>)
    requires a <= b
    ensures |a| <= |b|
    ensures a != b ==> |a| < |b|
  {
    if a == {} {
      assert a != b ==> exists x :: x in b;
    } else {
      var x :| x in a;
      SubsetSize(a - {x}, b - {x});
      assert a != b ==> a - {x} != b - {x};
    }
  }

  lemma RowsMeanAlways(db: Db, cutoff: int, limit: nat, locked: set<RequestId>, r: RequestId, pick: set<RequestId>)
    requires InEveryBatch(db, cutoff, limit, locked, r) && Batch(db, cutoff, limit, locked, pick)
    ensures r in pick
  {
    var e := Eligible(db, cutoff, locked);
    if r !in pick {
      assert pick <= UpTo(db, e, r) && r in UpTo(db, e, r);
      SubsetSize(pick, UpTo(db, e, r));
    }
  }

  lemma RowsMeanNever(db: Db, cutoff: int, limit: nat, locked: set<RequestId>, r: RequestId, pick: set<RequestId>)
    requires InNoBatch(db, cutoff, limit, locked, r) && Batch(db, cutoff, limit, locked, pick)
    ensures r !in pick
  {
    var e := Eligible(db, cutoff, locked);
    if r in pick {
      var before := Before(db, e, r);
      assert before <= pick && r !in before;
      SubsetSize(before, pick);
    }
  }

  lemma {:induction false} Smallest(e: set<RequestId>, key: RequestId -> int) returns (m: RequestId)
    requires e != {}
    ensures m in e && forall x :: x in e ==> key(m) <= key(x)
  {
    m :| m in e;
    if e != {m} {
      var rest := Smallest(e - {m}, key);
      m := if key(m) <= key(rest) then m else rest;
    }
  }

  lemma {:induction false} OldestFirst(e: set<RequestId>, limit: nat, key: RequestId -> int) returns (pick: set<RequestId>)
    ensures pick <= e && |pick| <= limit && (|pick| < limit ==> pick == e)
    ensures forall p, x :: p in pick && x in e && x !in pick ==> key(p) <= key(x)
    decreases limit
  {
    if limit == 0 || e == {} {
      pick := {};
    } else {
      var m := Smallest(e, key);
      var rest := OldestFirst(e - {m}, limit - 1, key);
      pick := rest + {m};
    }
  }

  /** Breaking ties in favour of a request, or against it, gives a batch. */
  lemma BatchLeaning(db: Db, cutoff: int, limit: nat, locked: set<RequestId>, r: RequestId, lean: int)
    returns (pick: set<RequestId>)
    requires lean == 0 || lean == 2
    ensures Batch(db, cutoff, limit, locked, pick)
    ensures forall p, x :: p in pick && x in Eligible(db, cutoff, locked) && x !in pick ==>
              Leaning(db, r, lean)(p) <= Leaning(db, r, lean)(x)
  {
    var key := Leaning(db, r, lean);
    pick := OldestFirst(Eligible(db, cutoff, locked), limit, key);
    forall p, x | p in pick && x in Eligible(db, cutoff, locked) && x !in pick
      ensures UpdatedAt(db, p) <= UpdatedAt(db, x)
    {
      assert key(p) <= key(x);
    }
  }

  function Leaning(db: Db, r: RequestId, lean: int): RequestId -> int {
    (x: RequestId) => 3 * UpdatedAt(db, x) + if x == r then lean else 1
  }

  lemma SomeBatchWith(db: Db, cutoff: int, limit: nat, locked: set<RequestId>, r: RequestId) returns (pick: set<RequestId>)
    requires !InNoBatch(db, cutoff, limit, locked, r)
    ensures Batch(db, cutoff, limit, locked, pick) && r in pick
  {
    var e := Eligible(db, cutoff, locked);
    pick := BatchLeaning(db, cutoff, limit, locked, r, 0);
    if r !in pick {
      forall p | p in pick
        ensures p in Before(db, e, r)
      {
        assert Leaning(db, r, 0)(p) <= Leaning(db, r, 0)(r);
      }
      SubsetSize(pick, Before(db, e, r));
    }
  }

  lemma SomeBatchWithout(db: Db, cutoff: int, limit: nat, locked: set<RequestId>, r: RequestId) returns (pick: set<RequestId>)
    requires !InEveryBatch(db, cutoff, limit, locked, r)
    ensures Batch(db, cutoff, limit, locked, pick) && r !in pick
  {
    var e := Eligible(db, cutoff, locked);
    pick := BatchLeaning(db, cutoff, limit, locked, r, 2);
    if r in pick {
      forall x | x in UpTo(db, e, r)
        ensures x in pick
      {
        assert x !in pick ==> Leaning(db, r, 2)(r) <= Leaning(db, r, 2)(x);
      }
      SubsetSize(UpTo(db, e, r), pick);
    }
  }

  /** A request is in every batch, or in none, exactly by these counts of rows. */
  lemma BatchMembership(db: Db, cutoff: int, limit: nat, locked: set<RequestId>, r: RequestId)
    ensures (forall pick :: Batch(db, cutoff, limit, locked, pick) ==> r in pick)
       <==> InEveryBatch(db, cutoff, limit, locked, r)
    ensures (forall pick :: Batch(db, cutoff, limit, locked, pick) ==> r !in pick)
       <==> InNoBatch(db, cutoff, limit, locked, r)
  {
    if InEveryBatch(db, cutoff, limit, locked, r) {
      forall pick | Batch(db, cutoff, limit, locked, pick)
        ensures r in pick
      {
        RowsMeanAlways(db, cutoff, limit, locked, r, pick);
      }
    } else {
      var pick := SomeBatchWithout(db, cutoff, limit, locked, r);
    }
    if InNoBatch(db, cutoff, limit, locked, r) {
      forall pick | Batch(db, cutoff, limit, locked, pick)
        ensures r !in pick
      {
        RowsMeanNever(db, cutoff, limit, locked, r, pick);
      }
    } else {
      var pick := SomeBatchWith(db, cutoff, limit, locked, r);
    }
  }

  // ---- Both evaluations -------------------------------------------------------------

  /** Requests whose rows others changed or removed between the two evaluations. */
  function Touched(db1: Db, db2: Db): set<RequestId> {
    set r | r in db1.requests && !(r in db2.requests && db2.requests[r] == db1.requests[r])
  }

  /**
    The first statement evaluates its query over `db1`, the second over `db2`: others
    commit in between, and locks change hands.  What the first picked it keeps locked, so
    others cannot have touched it; node tasks are not locked, and may be anything.
   */
  ghost predicate TwoBatches(db1: Db, db2: Db, cutoff: int, limit: nat, locked1: set<RequestId>, locked2: set<RequestId>, p: Picks) {
    && Batch(db1, cutoff, limit, locked1, p.attempts) && p.attempts !! Touched(db1, db2)
    && Batch(db2, cutoff, limit, locked2, p.requests)
    && p.tasks1 == db1.nodeTasks && p.tasks2 == db2.nodeTasks && Picked(db2, p, cutoff)
  }

  /** Rows the first evaluation can have picked, seeing what others changed afterwards. */
  function Skipped(db1: Db, db2: Db, locked1: set<RequestId>): set<RequestId> {
    locked1 + Touched(db1, db2)
  }

  /** Others can have touched an eligible row only if the first evaluation left it: `limit` untouched rows are as old. */
  predicate CanHappen(db1: Db, db2: Db, cutoff: int, limit: nat, locked1: set<RequestId>) {
    var e := Eligible(db1, cutoff, Skipped(db1, db2, locked1));
    forall x :: x in Eligible(db1, cutoff, locked1) && x in Touched(db1, db2) ==> |UpTo(db1, e, x)| >= limit
  }

  /** Every request with an open attempt is sure to be in the first batch, or sure not to be in the second. */
  predicate NoneLeftOpen(db1: Db, db2: Db, cutoff: int, limit: nat, locked1: set<RequestId>, locked2: set<RequestId>) {
    forall r :: r in db2.requests && !AllClosed(db2.attempts, r) ==>
      InEveryBatch(db1, cutoff, limit, Skipped(db1, db2, locked1), r) || InNoBatch(db2, cutoff, limit, locked2, r)
  }

  /** A batch that avoids the touched rows is a batch of the untouched ones. */
  lemma UntouchedBatch(db: Db, cutoff: int, limit: nat, locked: set<RequestId>, touched: set<RequestId>, pick: set<RequestId>)
    requires Batch(db, cutoff, limit, locked, pick) && pick !! touched
    ensures Batch(db, cutoff, limit, locked + touched, pick)
    ensures forall x :: x in Eligible(db, cutoff, locked) && x in touched ==>
              |UpTo(db, Eligible(db, cutoff, locked + touched), x)| >= limit
  {
    var e := Eligible(db, cutoff, locked + touched);
    forall x | x in Eligible(db, cutoff, locked) && x in touched
      ensures |UpTo(db, e, x)| >= limit
    {
      assert pick <= UpTo(db, e, x);
      SubsetSize(pick, UpTo(db, e, x));
    }
  }

  /** And where that many untouched rows are as old as each touched one, the converse holds. */
  lemma BatchOfUntouched(db: Db, cutoff: int, limit: nat, locked: set<RequestId>, touched: set<RequestId>, pick: set<RequestId>)
    requires Batch(db, cutoff, limit, locked + touched, pick)
    requires forall x :: x in Eligible(db, cutoff, locked) && x in touched ==>
               |UpTo(db, Eligible(db, cutoff, locked + touched), x)| >= limit
    ensures Batch(db, cutoff, limit, locked, pick) && pick !! touched
  {
    var e, all := Eligible(db, cutoff, locked + touched), Eligible(db, cutoff, locked);
    forall r, x | r in pick && x in all && x !in pick
      ensures UpdatedAt(db, r) <= UpdatedAt(db, x)
    {
      if x in touched && UpdatedAt(db, r) > UpdatedAt(db, x) {
        OlderRowsFillBatch(db, cutoff, limit, locked + touched, pick, r, x);
      }
    }
    if |pick| < limit {
      forall x | x in all
        ensures x in e
      {
        if x in touched {
          SubsetSize(UpTo(db, e, x), e);
        }
      }
    }
  }

  /** With `limit` eligible rows as old as x, nothing younger than x is picked. */
  lemma OlderRowsFillBatch(db: Db, cutoff: int, limit: nat, locked: set<RequestId>, pick: set<RequestId>, r: RequestId, x: RequestId)
    requires Batch(db, cutoff, limit, locked, pick) && r in pick
    requires |UpTo(db, Eligible(db, cutoff, locked), x)| >= limit
    ensures UpdatedAt(db, r) <= UpdatedAt(db, x)
  {
    var older := UpTo(db, Eligible(db, cutoff, locked), x);
    if UpdatedAt(db, r) > UpdatedAt(db, x) {
      assert older <= pick && r !in older;
      SubsetSize(older, pick);
    }
  }

  /**
    Whatever the two queries pick, and whatever others do in between, reconciliation closes
    all attempts of what it terminates, exactly under a condition on the rows and tasks
    that the statements see, the limit and the locks.
   */
  lemma ReconcileClosesAttemptsIff(db1: Db, db2: Db, cutoff: int, limit: nat, locked1: set<RequestId>, locked2: set<RequestId>)
    ensures (forall p :: TwoBatches(db1, db2, cutoff, limit, locked1, locked2, p) ==> ClosesAll(db2, p, cutoff))
       <==> (CanHappen(db1, db2, cutoff, limit, locked1) ==> NoneLeftOpen(db1, db2, cutoff, limit, locked1, locked2))
  {
    if CanHappen(db1, db2, cutoff, limit, locked1) && !NoneLeftOpen(db1, db2, cutoff, limit, locked1, locked2) {
      var r :| r in db2.requests && !AllClosed(db2.attempts, r)
               && !InEveryBatch(db1, cutoff, limit, Skipped(db1, db2, locked1), r) && !InNoBatch(db2, cutoff, limit, locked2, r);
      var p := LeavingOpen(db1, db2, cutoff, limit, locked1, locked2, r);
      assert !ClosesAll(db2, p, cutoff);
    } else {
      forall p | TwoBatches(db1, db2, cutoff, limit, locked1, locked2, p)
        ensures ClosesAll(db2, p, cutoff)
      {
        SurePicksClose(db1, db2, cutoff, limit, locked1, locked2, p);
      }
    }
  }

  /** Picks that terminate the request without closing its attempts. */
  lemma LeavingOpen(db1: Db, db2: Db, cutoff: int, limit: nat, locked1: set<RequestId>, locked2: set<RequestId>, r: RequestId)
    returns (p: Picks)
    requires CanHappen(db1, db2, cutoff, limit, locked1) && !AllClosed(db2.attempts, r)
    requires !InEveryBatch(db1, cutoff, limit, Skipped(db1, db2, locked1), r) && !InNoBatch(db2, cutoff, limit, locked2, r)
    ensures TwoBatches(db1, db2, cutoff, limit, locked1, locked2, p) && r in p.requests
    ensures !AllClosed(Reconcile(db2, p, cutoff).attempts, r)
  {
    var without := SomeBatchWithout(db1, cutoff, limit, Skipped(db1, db2, locked1), r);
    BatchOfUntouched(db1, cutoff, limit, locked1, Touched(db1, db2), without);
    var with := SomeBatchWith(db2, cutoff, limit, locked2, r);
    p := Picks(without, with, {}, db1.nodeTasks, db2.nodeTasks);
    PicksArePicked(db1, db2, cutoff, p);
    ClosedIfPicked(db2, p, cutoff, r);
  }

  lemma PicksArePicked(db1: Db, db2: Db, cutoff: int, p: Picks)
    requires p.attempts !! Touched(db1, db2) && p.tasks1 == db1.nodeTasks && p.tasks2 == db2.nodeTasks && p.billing == {}
    requires forall r :: r in p.attempts ==> r in db1.requests && Stale(db1, r, cutoff)
    requires forall r :: r in p.requests ==> Stale(db2, r, cutoff)
    ensures Picked(db2, p, cutoff)
  {
    forall r | r in p.attempts
      ensures Stale(Seeing(db2, p.tasks1), r, cutoff)
    {
      assert r !in Touched(db1, db2);
    }
  }

  lemma SurePicksClose(db1: Db, db2: Db, cutoff: int, limit: nat, locked1: set<RequestId>, locked2: set<RequestId>, p: Picks)
    requires CanHappen(db1, db2, cutoff, limit, locked1) ==> NoneLeftOpen(db1, db2, cutoff, limit, locked1, locked2)
    requires TwoBatches(db1, db2, cutoff, limit, locked1, locked2, p)
    ensures ClosesAll(db2, p, cutoff)
  {
    UntouchedBatch(db1, cutoff, limit, locked1, Touched(db1, db2), p.attempts);
    forall r | r in p.requests
      ensures AllClosed(Reconcile(db2, p, cutoff).attempts, r)
    {
      ClosedIfPicked(db2, p, cutoff, r);
      if !AllClosed(db2.attempts, r) {
        if InEveryBatch(db1, cutoff, limit, Skipped(db1, db2, locked1), r) {
          RowsMeanAlways(db1, cutoff, limit, Skipped(db1, db2, locked1), r, p.attempts);
        } else {
          RowsMeanNever(db2, cutoff, limit, locked2, r, p.requests);
        }
      }
    }
  }

  // ---- Situations in which nothing is left open -----------------------------------------

  predicate NoTies(db: Db, cutoff: int) {
    forall r, x :: r in db.requests && x in db.requests && r != x && Stale(db, r, cutoff) && Stale(db, x, cutoff) ==>
      db.requests[r].updatedAt != db.requests[x].updatedAt
  }

  /** No lock is released in between, no active task ends, and what others touch or add is fresh. */
  predicate NobodyBecomesEligible(db1: Db, db2: Db, cutoff: int, locked1: set<RequestId>, locked2: set<RequestId>) {
    && (forall r :: r in locked1 && r in db2.requests && Stale(db2, r, cutoff) ==> r in locked2)
    && (forall r :: r in db1.requests && TaskStatus(db1, r) == Some(NodeActive) ==> TaskStatus(db2, r) == Some(NodeActive))
    && (forall r :: r in db2.requests && (r !in db1.requests || r in Touched(db1, db2)) ==> !Stale(db2, r, cutoff))
  }

  lemma EligibleShrinks(db1: Db, db2: Db, cutoff: int, locked1: set<RequestId>, locked2: set<RequestId>)
    requires NobodyBecomesEligible(db1, db2, cutoff, locked1, locked2)
    ensures Eligible(db2, cutoff, locked2) <= Eligible(db1, cutoff, Skipped(db1, db2, locked1))
  {
    forall r | r in Eligible(db2, cutoff, locked2)
      ensures r in Eligible(db1, cutoff, Skipped(db1, db2, locked1))
    {
      assert r in db1.requests && r !in Touched(db1, db2);
      assert db1.requests[r] == db2.requests[r];
    }
  }

  /** Then, with the eligible rows unchanged and no two of the same age, nothing can be left open. */
  lemma SameRowsWithoutTiesClose(db1: Db, db2: Db, cutoff: int, limit: nat, locked1: set<RequestId>, locked2: set<RequestId>)
    requires NoTies(db1, cutoff) && NobodyBecomesEligible(db1, db2, cutoff, locked1, locked2)
    requires Eligible(db1, cutoff, Skipped(db1, db2, locked1)) <= Eligible(db2, cutoff, locked2)
    ensures NoneLeftOpen(db1, db2, cutoff, limit, locked1, locked2)
  {
    EligibleShrinks(db1, db2, cutoff, locked1, locked2);
    var e := Eligible(db1, cutoff, Skipped(db1, db2, locked1));
    assert Eligible(db2, cutoff, locked2) == e;
    forall r | r in e && |Before(db2, e, r)| < limit
      ensures |UpTo(db1, e, r)| <= limit
    {
      SameAges(db1, db2, cutoff, e, r);
      OneOfEachAge(db1, cutoff, e, r);
    }
  }

  lemma OneOfEachAge(db: Db, cutoff: int, e: set<RequestId>, r: RequestId)
    requires NoTies(db, cutoff) && r in e && forall x :: x in e ==> x in db.requests && Stale(db, x, cutoff)
    ensures |UpTo(db, e, r)| == |Before(db, e, r)| + 1
  {
    assert UpTo(db, e, r) == Before(db, e, r) + {r};
  }

  lemma SameAges(db1: Db, db2: Db, cutoff: int, e: set<RequestId>, r: RequestId)
    requires r in e && forall x :: x in e ==> x in db1.requests && x !in Touched(db1, db2)
    ensures UpTo(db1, e, r) == UpTo(db2, e, r) && Before(db1, e, r) == Before(db2, e, r)
  {
    assert forall x :: x in e ==> UpdatedAt(db1, x) == UpdatedAt(db2, x);
  }

  /** Nor, ties or not, while all eligible rows fit the limit. */
  lemma RoomyBatchesClose(db1: Db, db2: Db, cutoff: int, limit: nat, locked1: set<RequestId>, locked2: set<RequestId>)
    requires |Eligible(db1, cutoff, Skipped(db1, db2, locked1))| <= limit
    requires NobodyBecomesEligible(db1, db2, cutoff, locked1, locked2)
    ensures NoneLeftOpen(db1, db2, cutoff, limit, locked1, locked2)
  {
    EligibleShrinks(db1, db2, cutoff, locked1, locked2);
    var e := Eligible(db1, cutoff, Skipped(db1, db2, locked1));
    forall r | r in e
      ensures |UpTo(db1, e, r)| <= limit
    {
      SubsetSize(UpTo(db1, e, r), e);
    }
  }

  // ---- Inputs on which an attempt stays open ------------------------------------------

  const ARRIVED: Request := Request(Received, None, None, Pending, Actual, None, 5)

  const ROUTED: Request := Request(Running, Some(ProviderAccount), None, Pending, Actual, None, 5)

  const ON_NODE: Request := Request(Running, Some(Node), None, Pending, Actual, None, 5)

  const OPEN_ATTEMPT: Attempt := Attempt(2, 1, ProviderAccount, None, None, InProgress, false, None, None, None)

  const NODE_ATTEMPT: Attempt := Attempt(2, 1, Node, Some(3), Some(4), InProgress, false, None, None, None)

  /** The picks end request 2 and leave its attempt open. */
  ghost predicate LeavesOpen(db1: Db, db2: Db, limit: nat, locked1: set<RequestId>, locked2: set<RequestId>, p: Picks) {
    && TwoBatches(db1, db2, 7, limit, locked1, locked2, p) && !ClosesAll(db2, p, 7)
    && 2 in db2.requests && Reconcile(db2, p, 7).requests[2].finishedAt.Some?
  }

  lemma OpenAttemptStays(db: Db, p: Picks)
    requires Picked(db, p, 7) && 2 in p.requests && 2 !in p.attempts
    requires |db.attempts| == 1 && db.attempts[0].request == 2 && db.attempts[0].finishedAt.None?
    ensures !ClosesAll(db, p, 7) && Reconcile(db, p, 7).requests[2].finishedAt.Some?
  {
    ClosedIfPicked(db, p, 7, 2);
    assert !AllClosed(db.attempts, 2);
  }

  /** Two requests of the same age and a batch of one. */
  lemma TieCanLeaveAttemptOpen()
    ensures var db := Db(map[1 := ARRIVED, 2 := ROUTED], [OPEN_ATTEMPT], {}, map[], 9);
            LeavesOpen(db, db, 1, {}, {}, Picks({1}, {2}, {}, map[], map[]))
  {
    var db := Db(map[1 := ARRIVED, 2 := ROUTED], [OPEN_ATTEMPT], {}, map[], 9);
    var p := Picks({1}, {2}, {}, map[], map[]);
    assert Eligible(db, 7, {}) == {1, 2} && Touched(db, db) == {};
    assert Picked(db, p, 7);
    OpenAttemptStays(db, p);
  }

  /** Room for all and no tie, but another session lets go of a row in between. */
  lemma UnlockCanLeaveAttemptOpen()
    ensures var db := Db(map[1 := ARRIVED.(updatedAt := 4), 2 := ROUTED], [OPEN_ATTEMPT], {}, map[], 9);
            NoTies(db, 7) && LeavesOpen(db, db, 5, {2}, {}, Picks({1}, {1, 2}, {}, map[], map[]))
  {
    var db := Db(map[1 := ARRIVED.(updatedAt := 4), 2 := ROUTED], [OPEN_ATTEMPT], {}, map[], 9);
    var p := Picks({1}, {1, 2}, {}, map[], map[]);
    assert Eligible(db, 7, {2}) == {1} && Eligible(db, 7, {}) == {1, 2} && Touched(db, db) == {};
    assert Picked(db, p, 7);
    OpenAttemptStays(db, p);
  }

  /** No lock at all, but the request's node task fails in between, which touches no request. */
  lemma TaskEndCanLeaveAttemptOpen()
    ensures var db1 := Db(map[2 := ON_NODE], [NODE_ATTEMPT], {}, map[2 := NodeActive], 9);
            var db2 := db1.(nodeTasks := map[2 := NodeFailed]);
            LeavesOpen(db1, db2, 5, {}, {}, Picks({}, {2}, {}, db1.nodeTasks, db2.nodeTasks))
  {
    var db1 := Db(map[2 := ON_NODE], [NODE_ATTEMPT], {}, map[2 := NodeActive], 9);
    var db2 := db1.(nodeTasks := map[2 := NodeFailed]);
    var p := Picks({}, {2}, {}, db1.nodeTasks, db2.nodeTasks);
    assert Eligible(db1, 7, {}) == {} && Eligible(db2, 7, {}) == {2} && Touched(db1, db2) == {};
    assert Picked(db2, p, 7);
    OpenAttemptStays(db2, p);
  }

  // ---- The final attempt ----------------------------------------------------------------

  /** Of the open attempts of a request, one has the highest number. */
  lemma {:induction false} LatestOpenExists(xs: seq<Attempt>, r: RequestId, n: nat) returns (i: AttemptId)
    requires n <= |xs| && exists k :: 0 <= k < n && xs[k].request == r && xs[k].finishedAt.None?
    ensures i < n && xs[i].request == r && xs[i].finishedAt.None?
    ensures forall j :: 0 <= j < n && xs[j].request == r && xs[j].finishedAt.None? ==> xs[j].no <= xs[i].no
  {
    var last := n - 1;
    if k :| 0 <= k < last && xs[k].request == r && xs[k].finishedAt.None? {
      i := LatestOpenExists(xs, r, last);
      if xs[last].request == r && xs[last].finishedAt.None? && xs[last].no > xs[i].no {
        i := last;
      }
    } else {
      i := last;
    }
  }

  /**
    Closing the open attempts of a request leaves it with exactly one final attempt: the
    one it had, or the latest of those that were open.
   */
  lemma ReconciledRequestHasOneFinal(db: Db, p: Picks, cutoff: int, r: RequestId)
    requires AttemptsOk(db) && Picked(db, p, cutoff) && r in p.attempts && !AllClosed(db.attempts, r)
    ensures HasFinal(Reconcile(db, p, cutoff).attempts, r) && OneFinal(Reconcile(db, p, cutoff).attempts)
    ensures AllClosed(Reconcile(db, p, cutoff).attempts, r)
  {
    var xs, ys := db.attempts, Reconcile(db, p, cutoff).attempts;
    ReconcileKeepsAttempts(db, p, cutoff);
    if k :| 0 <= k < |xs| && xs[k].request == r && xs[k].isFinal {
      assert AttemptEvolves(xs[k], ys[k]) && AttemptOk(db, xs[k]);
    } else {
      var i := LatestOpenExists(xs, r, |xs|);
      LatestBecomesFinal(db, p, cutoff, i);
    }
  }

  /** The attempt that reconciliation makes final was the latest of the open ones. */
  lemma FinalIsTheLatest(db: Db, p: Picks, cutoff: int, i: AttemptId, j: AttemptId)
    requires Picked(db, p, cutoff) && i < |db.attempts| && j < |db.attempts|
    requires !db.attempts[i].isFinal && Reconcile(db, p, cutoff).attempts[i].isFinal
    requires db.attempts[j].request == db.attempts[i].request && db.attempts[j].finishedAt.None?
    ensures db.attempts[i].finishedAt.None? && db.attempts[j].no <= db.attempts[i].no
  {
  }

  lemma LatestBecomesFinal(db: Db, p: Picks, cutoff: int, i: AttemptId)
    requires AttemptsOk(db) && Picked(db, p, cutoff) && i < |db.attempts| && db.attempts[i].request in p.attempts
    requires LatestOpen(db.attempts, i) && !HasFinal(db.attempts, db.attempts[i].request)
    ensures Reconcile(db, p, cutoff).attempts[i].isFinal
    ensures Reconcile(db, p, cutoff).attempts[i].request == db.attempts[i].request
  {
  }
}
