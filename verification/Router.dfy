/**
  Read routing: circuit breaker, replica selection and the three-phase retry
  (crates/keycompute-db/src/db_router.rs).
 */
module WeightedSelection {

  function Total(weights: seq<nat>): nat {
    if weights == [] then 0 else Total(weights[..|weights| - 1]) + weights[|weights| - 1]
  }

  lemma {:induction false} TotalIsMonotone(weights: seq<nat>, i: nat, j: nat)
    requires i <= j <= |weights|
    ensures Total(weights[..i]) <= Total(weights[..j])
  {
    if i < j {
      TotalIsMonotone(weights, i, j - 1);
      PrefixTotal(weights, j - 1);
    }
  }

  lemma PrefixTotal(weights: seq<nat>, k: nat)
    requires k < |weights|
    ensures Total(weights[..k + 1]) == Total(weights[..k]) + weights[k]
  {
    assert weights[..k + 1][..k] == weights[..k];
  }

  /** A roll belongs to the replica whose stretch of [0, total) contains it. */
  predicate InStretch(weights: seq<nat>, k: nat, roll: nat)
    requires k < |weights|
  {
    Total(weights[..k]) <= roll < Total(weights[..k + 1])
  }

  lemma StretchIsUnique(weights: seq<nat>, j: nat, k: nat, roll: nat)
    requires j < |weights| && k < |weights|
    requires InStretch(weights, j, roll) && InStretch(weights, k, roll)
    ensures j == k
  {
    if j < k {
      TotalIsMonotone(weights, j + 1, k);
    } else if k < j {
      TotalIsMonotone(weights, k + 1, j);
    }
  }

  /** The index of the stretch that contains a roll. */
  function Stretch(weights: seq<nat>, roll: nat): (k: nat)
    requires roll < Total(weights)
    ensures k < |weights| && InStretch(weights, k, roll)
  {
    var n := |weights| - 1;
    assert weights[..n + 1] == weights;
    if Total(weights[..n]) <= roll then n
    else
      var k := Stretch(weights[..n], roll);
      assert weights[..n][..k] == weights[..k] && weights[..n][..k + 1] == weights[..k + 1];
      k
  }

  /** The walk over the list that subtracts each weight from the roll in turn. */
  method SelectByRoll(healthy: seq<nat>, weights: seq<nat>, start: nat) returns (chosen: nat)
    requires |healthy| == |weights| && start < Total(weights)
    ensures chosen == healthy[Stretch(weights, start)]
  {
    var roll: nat := start;
    chosen := healthy[0];
    assert weights[..|weights|] == weights;
    for i := 0 to |healthy|
      invariant roll + Total(weights[..i]) == start
    {
      PrefixTotal(weights, i);
      if roll < weights[i] {
        chosen := healthy[i];
        StretchIsUnique(weights, i, Stretch(weights, start), start);
        return;
      }
      roll := roll - weights[i];
    }
  }

  function Rolls(weights: seq<nat>, k: nat): set<nat> {
    set roll: nat | 0 <= roll < Total(weights) && Stretch(weights, roll) == k
  }

  predicate Within(lo: nat, x: nat, hi: nat) {
    lo <= x < hi
  }

  function Interval(lo: nat, hi: nat): set<nat> {
    set x: nat | lo <= x < hi && Within(lo, x, hi)
  }

  lemma {:induction false} IntervalSize(lo: nat, hi: nat)
    requires lo <= hi
    ensures |Interval(lo, hi)| == hi - lo
    decreases hi
  {
    if lo < hi {
      IntervalSize(lo, hi - 1);
      assert Interval(lo, hi) == Interval(lo, hi - 1) + {hi - 1};
    } else {
      assert Interval(lo, hi) == {};
    }
  }

  /**
    Selection is exactly proportional: of the rolls in [0, total), as many choose
    replica k as its weight, so a replica of weight zero is never chosen.
   */
  lemma SelectionIsProportional(weights: seq<nat>, k: nat)
    requires k < |weights|
    ensures |Rolls(weights, k)| == weights[k]
  {
    PrefixTotal(weights, k);
    assert weights[..|weights|] == weights;
    TotalIsMonotone(weights, k + 1, |weights|);
    var stretch := Interval(Total(weights[..k]), Total(weights[..k + 1]));
    forall roll: nat | roll in stretch
      ensures roll in Rolls(weights, k)
    {
      StretchIsUnique(weights, Stretch(weights, roll), k, roll);
    }
    assert Rolls(weights, k) == stretch;
    IntervalSize(Total(weights[..k]), Total(weights[..k + 1]));
  }

  /** The rolls whose chosen replica is the given one. */
  function RollsFor(healthy: seq<nat>, weights: seq<nat>, replica: nat): set<nat>
    requires |healthy| == |weights|
  {
    set roll: nat | 0 <= roll < Total(weights) && healthy[Stretch(weights, roll)] == replica
  }

  /** With distinct replicas, a replica is chosen by as many rolls as its weight. */
  lemma ReplicaIsChosenByItsWeight(healthy: seq<nat>, weights: seq<nat>, k: nat)
    requires |healthy| == |weights| && k < |weights|
    requires forall i, j :: 0 <= i < j < |healthy| ==> healthy[i] != healthy[j]
    ensures |RollsFor(healthy, weights, healthy[k])| == weights[k]
  {
    assert RollsFor(healthy, weights, healthy[k]) == Rolls(weights, k);
    SelectionIsProportional(weights, k);
  }
}

/** Turns of a counter that wraps at w, taken among n. */
module Turns {
  /** Position chosen among n by the k-th pick from counter c on. */
  function Turn(w: nat, n: nat, c: nat, k: nat): (t: nat)
    requires 0 < n && 0 < w
    ensures t < n
  {
    ((c + k) % w) % n
  }

  function Residue(n: nat, c: nat, k: nat): (t: nat)
    requires 0 < n
    ensures t < n
  {
    (c + k) % n
  }

  /** Of n consecutive picks exactly one chooses position j. */
  ghost predicate VisitedOnceInTurn(w: nat, n: nat, c: nat, j: nat)
    requires 0 < n && 0 < w
  {
    exists k: nat :: k < n && Turn(w, n, c, k) == j && forall k': nat :: k' < n && Turn(w, n, c, k') == j ==> k' == k
  }

  lemma ProductGrows(a: int, b: int, n: nat)
    requires a <= b
    ensures a * n <= b * n
  {
  }

  lemma NextMultiple(a: int, n: nat)
    ensures (a + 1) * n == a * n + n
  {
  }

  lemma DivisionIsUnique(n: nat, q: int, r: nat, q': int, r': nat)
    requires r < n && r' < n && q * n + r == q' * n + r'
    ensures q == q' && r == r'
  {
    if q < q' {
      ProductGrows(q + 1, q', n);
      NextMultiple(q, n);
    } else if q' < q {
      ProductGrows(q' + 1, q, n);
      NextMultiple(q', n);
    }
  }

  lemma Divide(x: nat, n: nat)
    requires 0 < n
    ensures x == x / n * n + x % n
  {
  }

  lemma ModIs(x: nat, q: int, n: nat, r: nat)
    requires r < n && x == q * n + r
    ensures x % n == r
  {
    Divide(x, n);
    DivisionIsUnique(n, q, r, x / n, x % n);
  }

  /** The residue of the k-th counter, told from that of the first. */
  lemma ResidueIs(n: nat, c: nat, k: nat)
    requires k < n
    ensures Residue(n, c, k) == if c % n + k < n then c % n + k else c % n + k - n
  {
    Divide(c, n);
    if c % n + k < n {
      ModIs(c + k, c / n, n, c % n + k);
    } else {
      NextMultiple(c / n, n);
      ModIs(c + k, c / n + 1, n, c % n + k - n);
    }
  }

  /** The n residues of consecutive counters are all different. */
  lemma ConsecutiveResidues(n: nat, c: nat, j: nat) returns (k: nat)
    requires j < n
    ensures k < n && Residue(n, c, k) == j && forall k': nat :: k' < n && Residue(n, c, k') == j ==> k' == k
  {
    var r := c % n;
    k := if j >= r then j - r else j - r + n;
    forall k': nat | k' < n
      ensures Residue(n, c, k') == if r + k' < n then r + k' else r + k' - n
    {
      ResidueIs(n, c, k');
    }
  }

  /** If n divides the wrap, residues do not notice it. */
  lemma WrapKeepsResidue(w: nat, n: nat, y: nat)
    requires 0 < n && w % n == 0
    ensures (w + y) % n == y % n
  {
    Divide(w, n);
    Divide(y, n);
    assert w + y == (w / n + y / n) * n + y % n;
    ModIs(w + y, w / n + y / n, n, y % n);
  }

  lemma Wrapped(w: nat, x: nat)
    requires x < 2 * w
    ensures x % w == if x < w then x else x - w
  {
    if x < w {
      ModIs(x, 0, w, x);
    } else {
      ModIs(x, 1, w, x - w);
    }
  }

  lemma TurnIsResidue(w: nat, n: nat, c: nat, k: nat)
    requires k < n <= w && c < w && (c + n <= w || w % n == 0)
    ensures Turn(w, n, c, k) == Residue(n, c, k)
  {
    Wrapped(w, c + k);
    if c + k >= w {
      WrapKeepsResidue(w, n, c + k - w);
    }
  }

  lemma TurnVisits(w: nat, n: nat, c: nat, j: nat)
    requires j < n <= w && c < w && (c + n <= w || w % n == 0)
    ensures VisitedOnceInTurn(w, n, c, j)
  {
    forall k: nat | k < n
      ensures Turn(w, n, c, k) == Residue(n, c, k)
    {
      TurnIsResidue(w, n, c, k);
    }
    var k := ConsecutiveResidues(n, c, j);
  }

  /** Picks of a full turn among different things choose each of them once. */
  lemma ChosenOnce<T>(w: nat, xs: seq<T>, chosen: seq<T>, c: nat, j: nat)
    requires 0 < |chosen| == |xs| <= w && c < w && (c + |chosen| <= w || w % |chosen| == 0)
    requires forall k :: 0 <= k < |chosen| ==> chosen[k] == xs[Turn(w, |chosen|, c, k)]
    requires j < |xs| && forall a, b :: 0 <= a < b < |xs| ==> xs[a] != xs[b]
    ensures exists k :: 0 <= k < |chosen| && chosen[k] == xs[j]
                        && forall k' :: 0 <= k' < |chosen| && chosen[k'] == xs[j] ==> k' == k
  {
    var n := |chosen|;
    TurnVisits(w, n, c, j);
    var k: nat :| k < n && Turn(w, n, c, k) == j && forall k': nat :: k' < n && Turn(w, n, c, k') == j ==> k' == k;
    assert chosen[k] == xs[j];
  }

  /** Position that the picks miss when the counter wraps among them and n does not divide the wrap. */
  function Missed(w: nat, n: nat, c: nat): int
    requires 0 < n && c < w
  {
    var d, m := w % n, w - c;
    if d >= m then n - 1 else n + d - m - 1
  }

  lemma WrapMisses(w: nat, n: nat, c: nat, k: nat)
    requires k < n <= w && c < w < c + n && w % n != 0
    ensures 0 <= Missed(w, n, c) < n && Turn(w, n, c, k) != Missed(w, n, c)
  {
    var d, m, q := w % n, w - c, w / n;
    Divide(w, n);
    Wrapped(w, c + k);
    if k >= m {
      ModIs(k - m, 0, n, k - m);
    } else if d + k >= m {
      ModIs(c + k, q, n, d + k - m);
    } else {
      NextMultiple(q - 1, n);
      ModIs(c + k, q - 1, n, n + d + k - m);
    }
  }

  /**
    Of n consecutive picks every position is chosen exactly once, exactly if the counter
    does not wrap among them or n divides the counter's range.
   */
  lemma RoundRobinIsFairIff(w: nat, n: nat, c: nat)
    requires 0 < n <= w && c < w
    ensures (forall j: nat :: j < n ==> VisitedOnceInTurn(w, n, c, j)) <==> c + n <= w || w % n == 0
  {
    if c + n <= w || w % n == 0 {
      forall j: nat | j < n
        ensures VisitedOnceInTurn(w, n, c, j)
      {
        TurnVisits(w, n, c, j);
      }
    } else {
      forall k: nat | k < n
        ensures Turn(w, n, c, k) != Missed(w, n, c)
      {
        WrapMisses(w, n, c, k);
      }
      WrapMisses(w, n, c, 0);
      assert !VisitedOnceInTurn(w, n, c, Missed(w, n, c));
    }
  }
}

module Router {
  import opened Common
  import opened WeightedSelection
  import opened Turns

  datatype Strategy = RoundRobin | Random | Weighted

  datatype Target = Replica(index: nat) | Writer

  /** What one database operation reports; connection errors are the retryable ones. */
  datatype Outcome = Success(value: int) | ConnectionError(message: string) | OtherError(message: string)

  datatype Operation = Operation(target: Target, outcome: Outcome)

  datatype ReadError = FromDatabase(outcome: Outcome) | Exhausted

  /** The atomic counter wraps at the machine word. */
  const USIZE: nat := 0x1_0000_0000_0000_0000

  /** The counter after a number of turns. */
  function Advanced(counter: nat, turns: nat): (c: nat)
    ensures c < USIZE
  {
    (counter + turns) % USIZE
  }

  /** Every operation failed with a connection error on some replica. */
  predicate AllReplicasRefused(log: seq<Operation>) {
    forall k :: 0 <= k < |log| ==> log[k].target.Replica? && log[k].outcome.ConnectionError?
  }

  /** The last operation, on a replica, gave the outcome, and all before it were refused. */
  predicate Decides(log: seq<Operation>, outcome: Outcome) {
    && |log| > 0 && AllReplicasRefused(log[..|log| - 1]) && log[|log| - 1].target.Replica?
    && outcome == log[|log| - 1].outcome && !outcome.ConnectionError?
  }

  predicate DistinctTargets(log: seq<Operation>) {
    forall j, k :: 0 <= j < k < |log| ==> log[j].target != log[k].target
  }

  predicate Refused(log: seq<Operation>, i: nat) {
    exists k :: 0 <= k < |log| && log[k] == Operation(Replica(i), log[k].outcome) && log[k].outcome.ConnectionError?
  }

  /** The log holds what `op` answered. */
  predicate Answers(log: seq<Operation>, op: (nat, Target) -> Outcome) {
    forall k :: 0 <= k < |log| ==> log[k].outcome == op(k, log[k].target)
  }

  function Appended(log: seq<Operation>, i: nat, outcome: Outcome): (longer: seq<Operation>)
    ensures |longer| == |log| + 1 && longer[..|log|] == log
  {
    log + [Operation(Replica(i), outcome)]
  }

  /** From `first` on, operations on replicas walk the ring of `n`. */
  predicate WalksRing(log: seq<Operation>, first: nat, n: nat) {
    forall k :: first <= k < |log| && log[k].target.Replica? ==> 0 < first && 0 < n && log[k].target == Replica(k % n)
  }

  lemma ExtendRing(log: seq<Operation>, first: nat, n: nat, i: nat, outcome: Outcome)
    requires 0 < first <= |log| && 0 < n && i == |log| % n && WalksRing(log, first, n)
    ensures WalksRing(Appended(log, i, outcome), first, n)
    ensures Appended(log, i, outcome)[..first] == log[..first]
    ensures AllReplicasRefused(log) && outcome.ConnectionError? ==> AllReplicasRefused(Appended(log, i, outcome))
  {
    var longer := Appended(log, i, outcome);
    assert longer[..first] == longer[..|log|][..first];
    forall k | first <= k < |longer| && longer[k].target.Replica?
      ensures longer[k].target == Replica(k % n)
    {
      assert k < |log| ==> longer[k] == log[k];
    }
  }

  lemma PhaseOneAlone(log: seq<Operation>, n: nat)
    ensures log[..|log|] == log && WalksRing(log, |log|, n)
  {
  }

  function WithWriter(log: seq<Operation>, outcome: Outcome): (longer: seq<Operation>)
    ensures |longer| == |log| + 1 && longer[..|log|] == log && longer[|log|] == Operation(Writer, outcome)
  {
    log + [Operation(Writer, outcome)]
  }

  lemma WriterComesLast(log: seq<Operation>, op: (nat, Target) -> Outcome, first: nat, n: nat)
    requires first <= |log| && Answers(log, op) && WalksRing(log, first, n)
    ensures var longer := WithWriter(log, op(|log|, Writer));
            Answers(longer, op) && WalksRing(longer, first, n) && longer[..first] == log[..first]
  {
    var longer := WithWriter(log, op(|log|, Writer));
    assert longer[..first] == longer[..|log|][..first];
    forall k | first <= k < |longer| && longer[k].target.Replica?
      ensures 0 < first && 0 < n && longer[k].target == Replica(k % n)
    {
      assert longer[k] == log[k];
    }
  }

  lemma ExtendAnswers(log: seq<Operation>, op: (nat, Target) -> Outcome, i: nat)
    requires Answers(log, op)
    ensures Answers(Appended(log, i, op(|log|, Replica(i))), op)
  {
  }

  /** Each replica in `tried` was visited once, in some order, and nothing else was. */
  predicate VisitedOnce(log: seq<Operation>, tried: set<nat>, n: nat) {
    && |tried| == |log| && DistinctTargets(log)
    && (forall i :: i in tried ==> i < n)
    && (forall k :: 0 <= k < |log| ==> log[k].target.Replica? && log[k].target.index in tried)
  }

  predicate RefusedAll(log: seq<Operation>, tried: set<nat>) {
    forall i :: i in tried ==> Refused(log, i)
  }

  lemma ExtendVisited(log: seq<Operation>, tried: set<nat>, n: nat, i: nat, outcome: Outcome)
    requires VisitedOnce(log, tried, n) && i !in tried && i < n
    ensures VisitedOnce(Appended(log, i, outcome), tried + {i}, n)
  {
  }

  lemma ExtendRefused(log: seq<Operation>, tried: set<nat>, i: nat, outcome: Outcome)
    requires RefusedAll(log, tried) && AllReplicasRefused(log) && outcome.ConnectionError?
    ensures RefusedAll(Appended(log, i, outcome), tried + {i}) && AllReplicasRefused(Appended(log, i, outcome))
  {
    var longer := Appended(log, i, outcome);
    forall j | j in tried + {i}
      ensures Refused(longer, j)
    {
      if j == i {
        assert longer[|log|] == Operation(Replica(i), outcome);
      } else {
        RefusedLonger(log, [Operation(Replica(i), outcome)], j);
      }
    }
  }

  lemma RefusedLonger(log: seq<Operation>, more: seq<Operation>, i: nat)
    requires Refused(log, i)
    ensures Refused(log + more, i)
  {
    var k :| 0 <= k < |log| && log[k] == Operation(Replica(i), log[k].outcome) && log[k].outcome.ConnectionError?;
    assert (log + more)[k] == log[k];
  }

  /** The clock, and every mark ever made against a replica, whoever made it. */
  datatype Record = Record(now: Time, marks: set<(nat, Time)>)

  /** Time and the record of marks only move forward. */
  ghost predicate Forward(r: Record, r': Record) {
    && r.now <= r'.now && r.marks <= r'.marks
    && (forall m :: m in r'.marks && m !in r.marks ==> r.now <= m.1)
  }

  /** The replica was marked down at or after `since`. */
  ghost predicate MarkedDown(r: Record, i: nat, since: Time) {
    exists t: Time :: (i, t) in r.marks && since <= t
  }

  /** The replica was marked down, and the window of that mark reaches beyond `since`. */
  ghost predicate BehindBreaker(r: Record, window: Duration, i: nat, since: Time) {
    exists t: Time :: (i, t) in r.marks && since < t + window
  }

  /** Every mark of the replica in this record is at least the breaker window old. */
  ghost predicate Expired(r: Record, window: Duration, i: nat) {
    forall t: Time :: (i, t) in r.marks ==> t + window <= r.now
  }

  /** The operation went to a replica whose marks had all expired by its pick; a refusal marked it since. */
  ghost predicate PickedExpired(r: Record, window: Duration, op: Operation, pick: Record) {
    && op.target.Replica? && Forward(pick, r) && Expired(pick, window, op.target.index)
    && (op.outcome.ConnectionError? ==> MarkedDown(r, op.target.index, pick.now))
  }

  /** `picks` holds the record at the pick of each operation of the log, in order, from `start` on. */
  ghost predicate PickedInTime(start: Record, r: Record, window: Duration, log: seq<Operation>, picks: seq<Record>) {
    && |picks| == |log|
    && (forall k :: 0 <= k < |log| ==> PickedExpired(r, window, log[k], picks[k]))
    && (forall k :: 0 <= k < |picks| ==> Forward(Previous(start, picks, k), picks[k]))
  }

  function Previous(start: Record, picks: seq<Record>, k: nat): Record
    requires k <= |picks|
  {
    if k == 0 then start else picks[k - 1]
  }

  ghost predicate OthersBehindBreaker(r: Record, window: Duration, n: nat, tried: set<nat>, since: Time) {
    forall i :: 0 <= i < n && i !in tried ==> BehindBreaker(r, window, i, since)
  }

  type Slots = seq<Option<Time>>

  /** A slot that is set is as it was, or was marked at or after `since`. */
  ghost predicate SlotsMoveOn(before: Slots, after: Slots, r: Record, since: Time) {
    && |before| == |after|
    && (forall i :: 0 <= i < |after| ==> after[i].None? || after[i] == before[i] || MarkedDown(r, i, since))
  }

  lemma SlotsMoveFurther(x: Slots, y: Slots, z: Slots, r: Record, r': Record, since: Time)
    requires SlotsMoveOn(x, y, r, since) && SlotsMoveOn(y, z, r', r.now) && Forward(r, r') && since <= r.now
    ensures SlotsMoveOn(x, z, r', since)
  {
    forall i | 0 <= i < |z|
      ensures z[i].None? || z[i] == x[i] || MarkedDown(r', i, since)
    {
      assert y[i].None? || y[i] == x[i] || MarkedDown(r, i, since);
    }
  }

  /** A probed replica that answered has a clear slot; unless it was marked meanwhile, as one that failed was. */
  ghost predicate Settled(slots: Slots, r: Record, since: Time, i: nat, alive: bool) {
    i < |slots| && ((alive && slots[i].None?) || MarkedDown(r, i, since))
  }

  lemma SettledStays(x: Slots, y: Slots, r: Record, r': Record, since: Time, i: nat, alive: bool)
    requires Settled(x, r, since, i, alive) && SlotsMoveOn(x, y, r', r.now) && Forward(r, r') && since <= r.now
    ensures Settled(y, r', since, i, alive)
  {
    assert y[i].None? || y[i] == x[i] || MarkedDown(r', i, r.now);
  }

  lemma ForwardIsTransitive(a: Record, b: Record, c: Record)
    requires Forward(a, b) && Forward(b, c)
    ensures Forward(a, c)
  {
  }

  lemma PicksStand(start: Record, r: Record, r': Record, window: Duration, log: seq<Operation>, picks: seq<Record>)
    requires Forward(r, r') && PickedInTime(start, r, window, log, picks)
    ensures PickedInTime(start, r', window, log, picks)
  {
    forall k | 0 <= k < |log|
      ensures PickedExpired(r', window, log[k], picks[k])
    {
      assert PickedExpired(r, window, log[k], picks[k]);
      ForwardIsTransitive(picks[k], r, r');
    }
  }

  lemma ExtendPicks(start: Record, before: Record, r: Record, window: Duration, log: seq<Operation>, picks: seq<Record>,
                    i: nat, outcome: Outcome, picked: Record)
    requires Forward(start, before) && PickedInTime(start, before, window, log, picks) && Forward(before, picked)
    requires PickedExpired(r, window, Operation(Replica(i), outcome), picked)
    ensures PickedInTime(start, r, window, Appended(log, i, outcome), picks + [picked])
  {
    ForwardIsTransitive(before, picked, r);
    PicksStand(start, before, r, window, log, picks);
    var longer, records := Appended(log, i, outcome), picks + [picked];
    forall k | 0 <= k < |longer|
      ensures PickedExpired(r, window, longer[k], records[k])
    {
      assert k < |log| ==> longer[k] == log[k] && records[k] == picks[k];
    }
    if |log| > 0 {
      assert PickedExpired(before, window, log[|log| - 1], picks[|log| - 1]);
    }
    ForwardIsTransitive(Previous(start, picks, |picks|), before, picked);
    forall k | 0 <= k < |records|
      ensures Forward(Previous(start, records, k), records[k])
    {
      assert Previous(start, records, k) == Previous(start, picks, k);
    }
  }

  lemma BreakersStand(r: Record, r': Record, window: Duration, n: nat, tried: set<nat>, since: Time, later: Time)
    requires Forward(r, r') && since <= later && OthersBehindBreaker(r, window, n, tried, later)
    ensures OthersBehindBreaker(r', window, n, tried, since)
  {
    forall i | 0 <= i < n && i !in tried
      ensures BehindBreaker(r', window, i, since)
    {
      assert BehindBreaker(r, window, i, later);
    }
  }

  /** The weights of the listed replicas; a number that is no replica has none. */
  function WeightsOf(weights: seq<nat>, healthy: seq<nat>): (ws: seq<nat>)
    ensures |ws| == |healthy|
    ensures forall j :: 0 <= j < |ws| && healthy[j] < |weights| ==> ws[j] == weights[healthy[j]]
  {
    seq(|healthy|, j requires 0 <= j < |healthy| => if healthy[j] < |weights| then weights[healthy[j]] else 0)
  }

  /**
    What one pick went by: the replicas to leave out, the slots under the health lock, the
    clock read before it, the replicas found healthy, the turn counter and the random roll.
   */
  datatype Choice = Choice(exclude: set<nat>, slots: Slots, observed: Time, healthy: seq<nat>, counter: nat, roll: nat)

  predicate Increasing(xs: seq<nat>) {
    forall j, k :: 0 <= j < k < |xs| ==> xs[j] < xs[k]
  }

  predicate ClosedBreaker(slots: Slots, i: nat, observed: Time)
    requires i < |slots|
  {
    slots[i].None? || slots[i].value <= observed
  }

  /** In order and each once, exactly the replicas not left out whose breaker is closed. */
  ghost predicate AllHealthy(healthy: seq<nat>, slots: Slots, exclude: set<nat>, observed: Time) {
    && Increasing(healthy) && (forall j :: 0 <= j < |healthy| ==> healthy[j] < |slots|)
    && (forall i: nat :: i in healthy <==> i < |slots| && i !in exclude && ClosedBreaker(slots, i, observed))
  }

  /** The slots with those of the healthy replicas cleared. */
  ghost predicate ClearedFor(healthy: seq<nat>, slots: Slots, after: Slots) {
    |after| == |slots| && forall i :: 0 <= i < |slots| ==> after[i] == if i in healthy then None else slots[i]
  }

  ghost predicate HealthyAre(c: Choice, n: nat) {
    |c.slots| == n && AllHealthy(c.healthy, c.slots, c.exclude, c.observed)
  }

  /** Round robin goes by the counter, and so does a weighted choice among weights that are all zero. */
  predicate ByCounter(healthy: seq<nat>, weights: seq<nat>, strategy: Strategy) {
    strategy == RoundRobin || (strategy == Weighted && Total(WeightsOf(weights, healthy)) == 0)
  }

  /** The replica is the one that the strategy names, by the counter or the roll. */
  predicate Named(healthy: seq<nat>, counter: nat, roll: nat, weights: seq<nat>, strategy: Strategy, chosen: nat) {
    && |healthy| > 0
    && (ByCounter(healthy, weights, strategy) ==> chosen == healthy[counter % |healthy|])
    && (strategy == Random ==> roll < |healthy| && chosen == healthy[roll])
    && (strategy == Weighted && !ByCounter(healthy, weights, strategy) ==>
          var ws := WeightsOf(weights, healthy);
          && roll < Total(ws) && chosen == healthy[Stretch(ws, roll)]
          && chosen < |weights| && weights[chosen] > 0)
  }

  predicate ByStrategy(c: Choice, weights: seq<nat>, strategy: Strategy, chosen: nat) {
    Named(c.healthy, c.counter, c.roll, weights, strategy, chosen)
  }

  /** The counter after a choice among these replicas. */
  function TurnTaken(healthy: seq<nat>, counter: nat, weights: seq<nat>, strategy: Strategy): nat {
    if healthy != [] && ByCounter(healthy, weights, strategy) then Advanced(counter, 1) else counter
  }

  function CounterAfter(c: Choice, weights: seq<nat>, strategy: Strategy): nat {
    TurnTaken(c.healthy, c.counter, weights, strategy)
  }

  /** Operation k of phase one went where the strategy sent it, among the replicas not visited before. */
  ghost predicate ChosenFor(log: seq<Operation>, k: nat, c: Choice, weights: seq<nat>, strategy: Strategy)
    requires k < |log|
  {
    && HealthyAre(c, |weights|) && log[k].target.Replica? && ByStrategy(c, weights, strategy, log[k].target.index)
    && (forall i: nat :: i in c.exclude <==> VisitedBefore(log, k, i))
  }

  predicate VisitedBefore(log: seq<Operation>, k: nat, i: nat)
    requires k <= |log|
  {
    exists j :: 0 <= j < k && log[j].target == Replica(i)
  }

  /** Pick k read the counter that the one before left, plus the turns of others. */
  predicate CountedFor(choices: seq<Choice>, k: nat, weights: seq<nat>, strategy: Strategy, start: nat, turns: nat -> nat)
    requires k < |choices|
  {
    choices[k].counter == Advanced(CounterBefore(choices, k, weights, strategy, start), turns(k))
  }

  ghost predicate ChosenInTurn(log: seq<Operation>, choices: seq<Choice>, weights: seq<nat>, strategy: Strategy,
                               start: nat, turns: nat -> nat)
  {
    && |choices| == |log|
    && (forall k :: 0 <= k < |log| ==> ChosenFor(log, k, choices[k], weights, strategy))
    && (forall k :: 0 <= k < |choices| ==> CountedFor(choices, k, weights, strategy, start, turns))
  }

  function CounterBefore(choices: seq<Choice>, k: nat, weights: seq<nat>, strategy: Strategy, start: nat): nat
    requires k <= |choices|
  {
    if k == 0 then start else CounterAfter(choices[k - 1], weights, strategy)
  }

  lemma ExtendChoices(log: seq<Operation>, choices: seq<Choice>, weights: seq<nat>, strategy: Strategy, start: nat,
                      turns: nat -> nat, tried: set<nat>, i: nat, outcome: Outcome, c: Choice)
    requires ChosenInTurn(log, choices, weights, strategy, start, turns) && VisitedOnce(log, tried, |weights|)
    requires c.exclude == tried && HealthyAre(c, |weights|) && ByStrategy(c, weights, strategy, i)
    requires c.counter == Advanced(CounterBefore(choices, |choices|, weights, strategy, start), turns(|log|))
    ensures ChosenInTurn(Appended(log, i, outcome), choices + [c], weights, strategy, start, turns)
    ensures CounterBefore(choices + [c], |choices| + 1, weights, strategy, start) == CounterAfter(c, weights, strategy)
  {
    var longer, more := Appended(log, i, outcome), choices + [c];
    forall k | 0 <= k < |longer|
      ensures ChosenFor(longer, k, more[k], weights, strategy)
    {
      if k < |log| {
        ChosenForLonger(log, longer, k, choices[k], weights, strategy);
      } else {
        ChosenLast(log, tried, i, outcome, c, weights, strategy);
      }
    }
    forall k | 0 <= k < |more|
      ensures CountedFor(more, k, weights, strategy, start, turns)
    {
      CountedForLonger(choices, c, k, weights, strategy, start, turns);
    }
  }

  lemma ChosenForLonger(log: seq<Operation>, longer: seq<Operation>, k: nat, c: Choice, weights: seq<nat>, strategy: Strategy)
    requires k < |log| <= |longer| && longer[..|log|] == log && ChosenFor(log, k, c, weights, strategy)
    ensures ChosenFor(longer, k, c, weights, strategy)
  {
    SameBefore(log, longer, k);
    assert longer[k] == log[k];
  }

  lemma ChosenLast(log: seq<Operation>, tried: set<nat>, i: nat, outcome: Outcome, c: Choice, weights: seq<nat>, strategy: Strategy)
    requires VisitedOnce(log, tried, |weights|) && c.exclude == tried
    requires HealthyAre(c, |weights|) && ByStrategy(c, weights, strategy, i)
    ensures ChosenFor(Appended(log, i, outcome), |log|, c, weights, strategy)
  {
    var longer := Appended(log, i, outcome);
    SameBefore(log, longer, |log|);
    TriedAreVisited(log, tried, |weights|);
    assert longer[|log|] == Operation(Replica(i), outcome);
  }

  lemma CountedForLonger(choices: seq<Choice>, c: Choice, k: nat, weights: seq<nat>, strategy: Strategy, start: nat, turns: nat -> nat)
    requires k <= |choices| && (k < |choices| ==> CountedFor(choices, k, weights, strategy, start, turns))
    requires k == |choices| ==> c.counter == Advanced(CounterBefore(choices, k, weights, strategy, start), turns(k))
    ensures CountedFor(choices + [c], k, weights, strategy, start, turns)
  {
    var more := choices + [c];
    assert k > 0 ==> more[k - 1] == choices[k - 1];
    assert more[k] == if k < |choices| then choices[k] else c;
  }

  lemma SameBefore(log: seq<Operation>, longer: seq<Operation>, k: nat)
    requires k <= |log| <= |longer| && longer[..|log|] == log
    ensures forall i: nat :: VisitedBefore(longer, k, i) <==> VisitedBefore(log, k, i)
  {
    assert forall j :: 0 <= j < |log| ==> longer[j] == log[j];
  }

  /** As many replicas were tried as the log has entries, all different, so each tried one was visited. */
  lemma {:induction false} TriedAreVisited(log: seq<Operation>, tried: set<nat>, n: nat)
    requires VisitedOnce(log, tried, n)
    ensures forall i: nat :: i in tried <==> VisitedBefore(log, |log|, i)
  {
    if log == [] {
      assert tried == {};
    } else {
      var last := |log| - 1;
      var i := log[last].target.index;
      var rest, fewer := log[..last], tried - {i};
      assert forall k :: 0 <= k < last ==> log[k].target != log[last].target;
      TriedAreVisited(rest, fewer, n);
      SameBefore(rest, log, last);
      assert forall j: nat :: VisitedBefore(log, |log|, j) <==> VisitedBefore(log, last, j) || j == i;
    }
  }

  lemma RoundRobinChoice(c: Choice, weights: seq<nat>, chosen: nat)
    requires ByStrategy(c, weights, RoundRobin, chosen)
    ensures chosen == c.healthy[c.counter % |c.healthy|]
  {
  }

  /**
    A full turn of undisturbed round-robin picks over the same healthy replicas goes to
    each of them exactly once, unless the counter wraps in between and their number does
    not divide its range.
   */
  lemma FullTurnVisitsEveryReplica(choices: seq<Choice>, chosen: seq<nat>, weights: seq<nat>, c: nat, i: nat)
    requires |choices| == |chosen| > 0 && c < USIZE && |choices| <= USIZE
    requires c + |choices| <= USIZE || USIZE % |choices| == 0
    requires forall k :: 0 <= k < |choices| ==>
               && choices[k].healthy == choices[0].healthy && |choices[k].healthy| == |choices|
               && choices[k].counter == (c + k) % USIZE && ByStrategy(choices[k], weights, RoundRobin, chosen[k])
    requires Increasing(choices[0].healthy) && i in choices[0].healthy
    ensures exists k :: 0 <= k < |chosen| && chosen[k] == i && forall k' :: 0 <= k' < |chosen| && chosen[k'] == i ==> k' == k
  {
    var n, healthy := |choices|, choices[0].healthy;
    var j :| 0 <= j < n && healthy[j] == i;
    forall k | 0 <= k < n
      ensures chosen[k] == healthy[Turn(USIZE, n, c, k)]
    {
      RoundRobinChoice(choices[k], weights, chosen[k]);
    }
    ChosenOnce(USIZE, healthy, chosen, c, j);
  }

  /** Three replicas at the wrap: the first is chosen twice, the third not at all. */
  lemma WrapRepeatsReplica()
    ensures Turn(USIZE, 3, USIZE - 1, 0) == Turn(USIZE, 3, USIZE - 1, 1) == 0 && Turn(USIZE, 3, USIZE - 1, 2) == 1
  {
  }

  class DbRouter {
    const weights: seq<nat>
    const strategy: Strategy
    const circuitBreak: Duration
    const retryAttempts: nat
    const fallbackToWrite: bool

    var downUntil: seq<Option<Time>>
    var rrCounter: nat
    var now: Time

    ghost var marks: set<(nat, Time)>

    ghost function History(): Record
      reads this
    {
      Record(now, marks)
    }

    /**
      A replica that was marked down stays behind its breaker for the whole window:
      its slot is cleared only once `circuitBreak` has passed since the last mark.
     */
    ghost predicate Valid()
      reads this
    {
      && |downUntil| == |weights| && rrCounter < USIZE
      && (forall m :: m in marks ==>
            && m.0 < |weights| && m.1 <= now
            && (m.1 + circuitBreak <= now || (downUntil[m.0].Some? && m.1 + circuitBreak <= downUntil[m.0].value)))
      && (forall i :: 0 <= i < |weights| && downUntil[i].Some? ==> MarkedFor(i, downUntil[i].value))
    }

    /** The breaker deadline stems from some mark. */
    ghost predicate MarkedFor(i: nat, deadline: Time)
      reads this
    {
      circuitBreak <= deadline && (i, deadline - circuitBreak) in marks
    }

    twostate predicate Later()
      reads this
    {
      Forward(old(History()), History())
    }

    constructor (weights: seq<nat>, strategy: Strategy, circuitBreak: Duration, retryAttempts: nat,
                 fallbackToWrite: bool, now: Time)
      ensures Valid() && this.weights == weights && this.strategy == strategy && this.now == now
      ensures this.circuitBreak == circuitBreak && this.retryAttempts == retryAttempts
      ensures this.fallbackToWrite == fallbackToWrite
      ensures downUntil == seq(|weights|, _ => None) && rrCounter == 0
    {
      this.weights, this.strategy, this.circuitBreak := weights, strategy, circuitBreak;
      this.retryAttempts, this.fallbackToWrite := retryAttempts, fallbackToWrite;
      this.downUntil := seq(|weights|, _ => None);
      this.marks := {};
      this.rrCounter, this.now := 0, now;
    }

    method MarkDown(i: nat)
      requires Valid()
      modifies this
      ensures Valid() && Later() && now == old(now) && rrCounter == old(rrCounter)
      ensures i < |weights| ==> downUntil == old(downUntil)[i := Some(now + circuitBreak)]
      ensures i < |weights| ==> marks == old(marks) + {(i, now)}
      ensures i >= |weights| ==> downUntil == old(downUntil) && marks == old(marks)
    {
      if i < |downUntil| {
        downUntil := downUntil[i := Some(now + circuitBreak)];
        marks := marks + {(i, now)};
      }
    }

    /** One step of another thread: anything the router offers but a turn of the counter, or time passing. */
    method OtherStep()
      requires Valid()
      modifies this
      ensures Valid() && Later() && SlotsMoveOn(old(downUntil), downUntil, History(), old(now))
      ensures rrCounter == old(rrCounter)
    {
      var n: nat :| 0 <= n;
      if * {
        now := now + n;
      } else if * {
        MarkDown(n);
        assert n < |weights| ==> (n, now) in marks;
      } else {
        RecoverIfExpired(n);
      }
    }

    /** What other threads may do between two steps of a call. */
    method OthersRun()
      requires Valid()
      modifies this
      ensures Valid() && Later() && SlotsMoveOn(old(downUntil), downUntil, History(), old(now))
      ensures rrCounter == old(rrCounter)
    {
      var steps: nat :| 0 <= steps;
      while steps > 0
        invariant Valid() && Later() && SlotsMoveOn(old(downUntil), downUntil, History(), old(now))
        invariant rrCounter == old(rrCounter)
      {
        ghost var slots, before := downUntil, History();
        OtherStep();
        ForwardIsTransitive(old(History()), before, History());
        SlotsMoveFurther(old(downUntil), slots, downUntil, before, History(), old(now));
        steps := steps - 1;
      }
    }

    /** A successful ping clears the slot unless it was marked again meanwhile. */
    method RecoverIfExpired(i: nat)
      requires Valid()
      modifies this
      ensures Valid() && Later() && now == old(now) && marks == old(marks) && rrCounter == old(rrCounter)
      ensures downUntil == if i < |weights| && old(downUntil)[i].Some? && old(downUntil)[i].value <= now
                           then old(downUntil)[i := None] else old(downUntil)
    {
      if i < |downUntil| && downUntil[i].Some? && now >= downUntil[i].value {
        downUntil := downUntil[i := None];
      }
    }

    /** Ping one replica whose breaker had expired. */
    method ProbeOne(i: nat, alive: bool)
      requires Valid() && i < |weights|
      modifies this
      ensures Valid() && Later() && SlotsMoveOn(old(downUntil), downUntil, History(), old(now))
      ensures if alive then downUntil[i].Some? ==> now < downUntil[i].value else MarkedDown(History(), i, old(now))
    {
      OthersRun();
      if alive {
        RecoverIfExpired(i);
      } else {
        MarkDown(i);
        assert (i, now) in marks;
      }
    }

    /** The background health check; `alive` answers the pings. */
    method ProbeReads(alive: nat -> bool) returns (probed: seq<nat>)
      requires Valid()
      modifies this
      ensures Valid() && Later()
      ensures forall i :: i in probed <==>
                0 <= i < |weights| && old(downUntil)[i].Some? && old(downUntil)[i].value <= old(now)
      ensures forall j :: 0 <= j < |probed| ==> Settled(downUntil, History(), old(now), probed[j], alive(probed[j]))
    {
      probed := ExpiredBreakers();
      for k := 0 to |probed|
        invariant Valid() && Later() && SlotsMoveOn(old(downUntil), downUntil, History(), old(now))
        invariant forall j :: 0 <= j < k ==> Settled(downUntil, History(), old(now), probed[j], alive(probed[j]))
      {
        ghost var slots, before := downUntil, History();
        assert probed[k] in probed;
        ProbeOne(probed[k], alive(probed[k]));
        ForwardIsTransitive(old(History()), before, History());
        SlotsMoveFurther(old(downUntil), slots, downUntil, before, History(), old(now));
        forall j | 0 <= j < k
          ensures Settled(downUntil, History(), old(now), probed[j], alive(probed[j]))
        {
          SettledStays(slots, downUntil, before, History(), old(now), probed[j], alive(probed[j]));
        }
      }
    }

    method ExpiredBreakers() returns (expired: seq<nat>)
      requires Valid()
      ensures forall i :: i in expired <==> 0 <= i < |weights| && downUntil[i].Some? && downUntil[i].value <= now
    {
      expired := [];
      for i := 0 to |weights|
        invariant forall j :: j in expired <==> 0 <= j < i && downUntil[j].Some? && downUntil[j].value <= now
      {
        if downUntil[i].Some? && now >= downUntil[i].value {
          expired := expired + [i];
        }
      }
    }

    /**
      Choose a replica outside `exclude` whose breaker is closed, by the strategy; none
      means that all others are open.  `turns` counts the picks of other threads since ours
      began, as far as they took a turn of the counter.
     */
    method PickNextRead(exclude: set<nat>, turns: nat) returns (chosen: Option<nat>, ghost choice: Choice)
      requires Valid()
      modifies this
      ensures Valid() && Later()
      ensures chosen.Some? ==> chosen.value < |weights| && chosen.value !in exclude && Expired(History(), circuitBreak, chosen.value)
      ensures chosen.None? ==> OthersBehindBreaker(History(), circuitBreak, |weights|, exclude, old(now))
      // What it went by: the slots as others left them, which it clears where it found them expired ...
      ensures choice.exclude == exclude && choice.observed == old(now) && HealthyAre(choice, |weights|)
      ensures SlotsMoveOn(old(downUntil), choice.slots, History(), old(now))
      ensures ClearedFor(choice.healthy, choice.slots, downUntil)
      // ... and the counter with the turns of others, of which it takes one if it goes by it.
      ensures choice.counter == if choice.healthy == [] then old(rrCounter) else Advanced(old(rrCounter), turns)
      ensures rrCounter == CounterAfter(choice, weights, strategy)
      ensures chosen.Some? <==> choice.healthy != []
      ensures chosen.Some? ==> ByStrategy(choice, weights, strategy, chosen.value)
    {
      if |weights| == 0 {
        return None, Choice(exclude, downUntil, now, [], rrCounter, 0);
      }
      var clock := now;
      OthersRun();
      ghost var slots := downUntil;
      var healthy := CollectHealthy(exclude, clock);
      if |healthy| == 0 {
        return None, Choice(exclude, slots, clock, [], rrCounter, 0);
      }
      rrCounter := Advanced(rrCounter, turns);
      ghost var counter, roll := rrCounter, 0;
      var index;
      index, roll := SelectHealthy(healthy);
      return Some(index), Choice(exclude, slots, clock, healthy, counter, roll);
    }

    /** The scan under the health lock, with the clock read before it; expired breakers are cleared. */
    method CollectHealthy(exclude: set<nat>, observed: Time) returns (healthy: seq<nat>)
      requires Valid() && observed <= now
      modifies this
      ensures Valid() && History() == old(History()) && rrCounter == old(rrCounter)
      ensures forall j :: 0 <= j < |healthy| ==>
                healthy[j] < |weights| && healthy[j] !in exclude && Expired(History(), circuitBreak, healthy[j])
      ensures forall i :: 0 <= i < |weights| && i !in exclude && i !in healthy ==>
                BehindBreaker(History(), circuitBreak, i, observed)
      ensures AllHealthy(healthy, old(downUntil), exclude, observed) && ClearedFor(healthy, old(downUntil), downUntil)
    {
      healthy := [];
      for i := 0 to |weights|
        invariant Valid() && History() == old(History()) && rrCounter == old(rrCounter)
        invariant forall j :: 0 <= j < |healthy| ==>
                    healthy[j] < i && healthy[j] !in exclude && Expired(History(), circuitBreak, healthy[j])
        invariant forall j :: 0 <= j < i && j !in exclude && j !in healthy ==>
                    BehindBreaker(History(), circuitBreak, j, observed)
        invariant Increasing(healthy)
        invariant forall j: nat :: j in healthy <==> j < i && j !in exclude && ClosedBreaker(old(downUntil), j, observed)
        invariant forall j :: 0 <= j < |weights| ==> downUntil[j] == if j in healthy then None else old(downUntil)[j]
      {
        if i in exclude {
          continue;
        }
        if downUntil[i].Some? {
          assert MarkedFor(i, downUntil[i].value);
          if observed >= downUntil[i].value {
            downUntil := downUntil[i := None];
          } else {
            continue;
          }
        }
        healthy := healthy + [i];
      }
    }

    /**
      Choose among the healthy replicas.  `roll` is the random number drawn by the random
      and the weighted strategy.
     */
    method SelectHealthy(healthy: seq<nat>) returns (chosen: nat, ghost roll: nat)
      requires Valid() && |healthy| > 0
      requires forall j :: 0 <= j < |healthy| ==> healthy[j] < |weights|
      modifies this`rrCounter
      ensures chosen in healthy
      ensures Named(healthy, old(rrCounter), roll, weights, strategy, chosen)
      ensures rrCounter == TurnTaken(healthy, old(rrCounter), weights, strategy)
    {
      roll := 0;
      if strategy == RoundRobin {
        chosen := healthy[rrCounter % |healthy|];
        rrCounter := Advanced(rrCounter, 1);
      } else if strategy == Random {
        var draw: nat :| draw < |healthy|;
        roll := draw;
        chosen := healthy[draw];
      } else {
        var ws := WeightsOf(weights, healthy);
        if Total(ws) == 0 {
          chosen := healthy[rrCounter % |healthy|];
          rrCounter := Advanced(rrCounter, 1);
        } else {
          var draw: nat :| draw < Total(ws);
          roll := draw;
          chosen := SelectByRoll(healthy, ws, draw);
          PrefixTotal(ws, Stretch(ws, draw));
        }
      }
    }

    /** One operation on one replica; a connection error opens its breaker. */
    method ReadFrom(op: (nat, Target) -> Outcome, k: nat, i: nat) returns (outcome: Outcome)
      requires Valid() && i < |weights|
      modifies this
      ensures Valid() && Later() && rrCounter == old(rrCounter)
      ensures outcome == op(k, Replica(i))
      ensures outcome.ConnectionError? ==> MarkedDown(History(), i, old(now))
    {
      outcome := op(k, Replica(i));
      OthersRun();
      if outcome.ConnectionError? {
        MarkDown(i);
      }
    }

    /** One round of phase one: pick an untried replica and read from it. */
    method TryNext(op: (nat, Target) -> Outcome, turns: nat, k: nat, tried: set<nat>)
      returns (idx: Option<nat>, outcome: Outcome, ghost picked: Record, ghost choice: Choice)
      requires Valid()
      modifies this
      ensures Valid() && Later()
      ensures idx.None? ==> OthersBehindBreaker(History(), circuitBreak, |weights|, tried, old(now))
      ensures idx.Some? ==>
                && idx.value < |weights| && idx.value !in tried && outcome == op(k, Replica(idx.value))
                && Forward(old(History()), picked)
                && PickedExpired(History(), circuitBreak, Operation(Replica(idx.value), outcome), picked)
      ensures idx.Some? ==>
                && choice.exclude == tried && HealthyAre(choice, |weights|) && choice.counter == Advanced(old(rrCounter), turns)
                && ByStrategy(choice, weights, strategy, idx.value) && rrCounter == CounterAfter(choice, weights, strategy)
    {
      idx, choice := PickNextRead(tried, turns);
      picked, outcome := History(), Success(0);
      if idx.Some? {
        outcome := ReadFrom(op, k, idx.value);
      }
    }

    /** Phase one: every replica at most once, and none behind its breaker. */
    method TryHealthyReplicas(op: (nat, Target) -> Outcome, turns: nat -> nat)
      returns (answer: Option<Outcome>, log: seq<Operation>, tried: set<nat>, ghost picks: seq<Record>, ghost choices: seq<Choice>)
      requires Valid()
      modifies this
      ensures Valid() && Later()
      ensures |log| <= |weights| && VisitedOnce(log, tried, |weights|) && Answers(log, op)
      ensures PickedInTime(old(History()), History(), circuitBreak, log, picks)
      ensures ChosenInTurn(log, choices, weights, strategy, old(rrCounter), turns)
      ensures answer.None? ==> AllReplicasRefused(log) && RefusedAll(log, tried)
      ensures answer.None? ==> OthersBehindBreaker(History(), circuitBreak, |weights|, tried, old(now))
      ensures answer.Some? ==> Decides(log, answer.value)
    {
      log, tried, picks, choices := [], {}, [], [];
      for round := 0 to |weights|
        invariant Valid() && Later()
        invariant |log| == round && VisitedOnce(log, tried, |weights|) && Answers(log, op)
        invariant AllReplicasRefused(log) && RefusedAll(log, tried)
        invariant PickedInTime(old(History()), History(), circuitBreak, log, picks)
        invariant ChosenInTurn(log, choices, weights, strategy, old(rrCounter), turns)
        invariant rrCounter == CounterBefore(choices, |choices|, weights, strategy, old(rrCounter))
      {
        ghost var before := History();
        ghost var picked, choice;
        var idx, outcome;
        idx, outcome, picked, choice := TryNext(op, turns(|log|), |log|, tried);
        ForwardIsTransitive(old(History()), before, History());
        PicksStand(old(History()), before, History(), circuitBreak, log, picks);
        if idx.None? {
          BreakersStand(History(), History(), circuitBreak, |weights|, tried, old(now), before.now);
          return None, log, tried, picks, choices;
        }
        ExtendVisited(log, tried, |weights|, idx.value, outcome);
        ExtendAnswers(log, op, idx.value);
        ExtendPicks(old(History()), before, History(), circuitBreak, log, picks, idx.value, outcome, picked);
        ExtendChoices(log, choices, weights, strategy, old(rrCounter), turns, tried, idx.value, outcome, choice);
        if !outcome.ConnectionError? {
          return Some(outcome), Appended(log, idx.value, outcome), tried + {idx.value}, picks + [picked], choices + [choice];
        }
        ExtendRefused(log, tried, idx.value, outcome);
        log, tried, picks := Appended(log, idx.value, outcome), tried + {idx.value}, picks + [picked];
        choices := choices + [choice];
      }
      AllTried(tried, |weights|);
      answer := None;
    }

    /** Phase two: walk the ring of replicas, breakers notwithstanding. */
    method RetryReplicas(op: (nat, Target) -> Outcome, log0: seq<Operation>)
      returns (answer: Option<Outcome>, log: seq<Operation>)
      requires Valid() && |weights| > 0 && |log0| > 0 && AllReplicasRefused(log0) && Answers(log0, op)
      modifies this
      ensures Valid() && Later()
      ensures |log0| <= |log| <= |log0| + retryAttempts && log[..|log0|] == log0 && Answers(log, op)
      ensures WalksRing(log, |log0|, |weights|)
      ensures answer.None? ==> |log| == |log0| + retryAttempts && AllReplicasRefused(log)
      ensures answer.Some? ==> |log| > |log0| && Decides(log, answer.value)
    {
      log := log0;
      for retry := 0 to retryAttempts
        invariant Valid() && Later()
        invariant |log| == |log0| + retry && log[..|log0|] == log0
        invariant AllReplicasRefused(log) && Answers(log, op) && WalksRing(log, |log0|, |weights|)
      {
        var idx := (|log0| + retry) % |weights|;
        var outcome := ReadFrom(op, |log|, idx);
        ExtendAnswers(log, op, idx);
        ExtendRing(log, |log0|, |weights|, idx, outcome);
        log := Appended(log, idx, outcome);
        if !outcome.ConnectionError? {
          return Some(outcome), log;
        }
      }
      answer := None;
    }

    /** Phase two after a phase one that began at `start`: what that phase found still stands. */
    method RetryAll(op: (nat, Target) -> Outcome, log0: seq<Operation>, tried: set<nat>,
                    ghost start: Record, ghost picks: seq<Record>)
      returns (answer: Option<Outcome>, log: seq<Operation>)
      requires Valid() && |weights| > 0 && |log0| > 0 && AllReplicasRefused(log0) && Answers(log0, op)
      requires PickedInTime(start, History(), circuitBreak, log0, picks)
      requires RefusedAll(log0, tried) && OthersBehindBreaker(History(), circuitBreak, |weights|, tried, start.now)
      modifies this
      ensures Valid() && Later()
      ensures |log0| <= |log| <= |log0| + retryAttempts && log[..|log0|] == log0 && Answers(log, op)
      ensures WalksRing(log, |log0|, |weights|) && PickedInTime(start, History(), circuitBreak, log0, picks)
      ensures answer.Some? ==> |log| > |log0| && Decides(log, answer.value)
      ensures answer.None? ==>
                && |log| == |log0| + retryAttempts && AllReplicasRefused(log)
                && AllOut(History(), circuitBreak, |weights|, log, start.now)
    {
      ghost var before := History();
      answer, log := RetryReplicas(op, log0);
      PicksStand(start, before, History(), circuitBreak, log0, picks);
      BreakersStand(before, History(), circuitBreak, |weights|, tried, start.now, start.now);
      if answer.None? {
        StillRefused(log0, log, tried, History(), circuitBreak, |weights|, start.now);
      }
    }

    /** Phases one and two together; `first` counts the operations of phase one. */
    method ReadFromReplicas(op: (nat, Target) -> Outcome, turns: nat -> nat)
      returns (answer: Option<Outcome>, log: seq<Operation>, first: nat, ghost picks: seq<Record>, ghost choices: seq<Choice>)
      requires Valid() && |weights| > 0
      modifies this
      ensures Valid() && Later()
      ensures first <= |log| <= first + retryAttempts && first <= |weights| && Answers(log, op)
      ensures DistinctTargets(log[..first]) && PickedInTime(old(History()), History(), circuitBreak, log[..first], picks)
      ensures ChosenInTurn(log[..first], choices, weights, strategy, old(rrCounter), turns)
      ensures WalksRing(log, first, |weights|)
      ensures answer.Some? ==> Decides(log, answer.value)
      ensures answer.None? ==>
                && AllReplicasRefused(log) && (log == [] || |log| == first + retryAttempts)
                && AllOut(History(), circuitBreak, |weights|, log, old(now))
    {
      var tried;
      answer, log, tried, picks, choices := TryHealthyReplicas(op, turns);
      first := |log|;
      PhaseOneAlone(log, |weights|);
      if answer.Some? {
        return;
      }
      if |log| == 0 || retryAttempts == 0 {
        StillRefused(log, log, tried, History(), circuitBreak, |weights|, old(now));
        return;
      }
      ghost var before := History();
      ghost var phaseOne := log;
      answer, log := RetryAll(op, log, tried, old(History()), picks);
      ForwardIsTransitive(old(History()), before, History());
      assert log[..first] == phaseOne;
    }

    /**
      A routed read.  `op` answers the k-th operation of the call on a target and `turns(k)`
      counts the turns of the counter that others take before its k-th pick.  `first` counts
      the operations of phase one; `picks` holds the record when each of them was given its
      replica, `choices` what the pick went by.
     */
    method ExecuteReadRetry(op: (nat, Target) -> Outcome, turns: nat -> nat)
      returns (result: Result<int, ReadError>, log: seq<Operation>, first: nat, ghost picks: seq<Record>, ghost choices: seq<Choice>)
      requires Valid()
      modifies this
      ensures Valid() && Later()
      ensures |log| <= |weights| + retryAttempts + 1 && Answers(log, op)
      // Phase one visits distinct replicas outside their windows, each where the strategy sent it;
      // phase two walks the ring from there.
      ensures first <= |log| && first <= |weights| && DistinctTargets(log[..first])
      ensures PickedInTime(old(History()), History(), circuitBreak, log[..first], picks)
      ensures ChosenInTurn(log[..first], choices, weights, strategy, old(rrCounter), turns)
      ensures WalksRing(log, first, |weights|)
      // Only the last operation can decide, and only it can reach the writer.
      ensures result == if log == [] then Err(Exhausted) else Answer(log[|log| - 1].outcome)
      ensures log != [] ==> AllReplicasRefused(log[..|log| - 1])
      ensures log != [] && log[|log| - 1].target == Writer ==> weights == [] || fallbackToWrite
      // A connection error surfaces only from the writer when there is one to fall back to.
      ensures fallbackToWrite || weights == [] ==>
                log != [] && (log[|log| - 1].outcome.ConnectionError? ==> log[|log| - 1].target == Writer)
      // Without a fallback, giving up means that every retry was spent and that every
      // replica refused or was behind its breaker.
      ensures !fallbackToWrite && weights != [] && (log == [] || log[|log| - 1].outcome.ConnectionError?) ==>
                && (log == [] || |log| == first + retryAttempts)
                && AllOut(History(), circuitBreak, |weights|, log, old(now))
    {
      first, picks, choices := 0, [], [];
      if |weights| == 0 {
        log := [Operation(Writer, op(0, Writer))];
        result := Answer(op(0, Writer));
        return;
      }
      var answer;
      answer, log, first, picks, choices := ReadFromReplicas(op, turns);
      if answer.Some? {
        result := Answer(answer.value);
        return;
      }
      if fallbackToWrite {
        var outcome := op(|log|, Writer);
        WriterComesLast(log, op, first, |weights|);
        log := WithWriter(log, outcome);
        result := Answer(outcome);
        return;
      }
      result := if |log| > 0 then Err(FromDatabase(log[|log| - 1].outcome)) else Err(Exhausted);
    }
  }

  /** Every replica refused in this log, or was marked with a window reaching beyond `since`. */
  ghost predicate AllOut(r: Record, window: Duration, n: nat, log: seq<Operation>, since: Time) {
    forall i :: 0 <= i < n ==> Refused(log, i) || BehindBreaker(r, window, i, since)
  }

  lemma StillRefused(phaseOne: seq<Operation>, log: seq<Operation>, tried: set<nat>, r: Record, window: Duration, n: nat, since: Time)
    requires |phaseOne| <= |log| && log[..|phaseOne|] == phaseOne && RefusedAll(phaseOne, tried)
    requires OthersBehindBreaker(r, window, n, tried, since)
    ensures AllOut(r, window, n, log, since)
  {
    forall i | 0 <= i < n
      ensures Refused(log, i) || BehindBreaker(r, window, i, since)
    {
      if i in tried {
        RefusedLonger(phaseOne, log[|phaseOne|..], i);
        assert log == phaseOne + log[|phaseOne|..];
      }
    }
  }

  function Answer(outcome: Outcome): Result<int, ReadError> {
    match outcome
    case Success(v) => Ok(v)
    case _ => Err(FromDatabase(outcome))
  }

  /** A set of n numbers below n holds them all. */
  lemma {:induction false} AllTried(tried: set<nat>, n: nat)
    requires |tried| == n && forall i :: i in tried ==> i < n
    ensures forall i :: 0 <= i < n ==> i in tried
  {
    var all := Interval(0, n);
    IntervalSize(0, n);
    if i: nat :| i < n && i !in tried {
      assert i in all;
      assert tried <= all - {i};
      SubsetSize(tried, all - {i});
    }
  }

  lemma {:induction false} SubsetSize(a: set<nat>, b: set<nat>)
    requires a <= b
    ensures |a| <= |b|
  {
    if a != {} {
      var x :| x in a;
      SubsetSize(a - {x}, b - {x});
    }
  }
}
