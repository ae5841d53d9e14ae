/**
  The recovery gate of the optional cache: an epoch-fenced, single-flight gate
  with capped exponential backoff (crates/keycompute-cache/src/recovery.rs).

  `State` and the functions `Begin`, `Succeed` and `Fail` describe one critical
  section each.  The class `RecoveryGate` is the mutex-guarded object itself, with
  each method proved against its function.  `World` adds the clock and the probes
  that callers still hold, so that the theorems range over every interleaving.
 */
module Recovery {
  import opened Common

  datatype Config = Config(minimum: Duration, maximum: Duration)

  datatype State = State(ready: bool, probing: bool, epoch: nat, retryAt: Time, delay: Duration)

  datatype Probe = Probe(epoch: nat, exclusive: bool)

  predicate Blocked(s: State, now: Time) {
    !s.ready && (s.probing || now < s.retryAt)
  }

  function Begin(s: State, now: Time): Option<(State, Probe)> {
    if Blocked(s, now) then None
    else Some((s.(probing := s.probing || !s.ready), Probe(s.epoch, !s.ready)))
  }

  function Succeed(c: Config, s: State, p: Probe): State {
    var s := if p.exclusive then s.(probing := false) else s;
    if s.epoch == p.epoch then s.(ready := true, delay := c.minimum) else s
  }

  /** A failure counts when it comes from the current epoch and changes the gate. */
  predicate Counts(s: State, p: Probe) {
    s.epoch == p.epoch && (s.ready || p.exclusive)
  }

  function Fail(c: Config, s: State, p: Probe, now: Time): State {
    var s := if p.exclusive then s.(probing := false) else s;
    if Counts(s, p) then
      s.(ready := false, epoch := s.epoch + 1, retryAt := now + s.delay, delay := Min(2 * s.delay, c.maximum))
    else s
  }

  /**
    The gate object; every method body is one critical section of its mutex.  `now` is
    the clock, `held` the probes that callers hold and `outage` the history.
   */
  class RecoveryGate {
    var ready: bool
    var probing: bool
    var epoch: nat
    var retryAt: Time
    var delay: Duration
    const config: Config
    var now: Time
    var held: multiset<Probe>
    var outage: Outage

    function View(): State
      reads this
    {
      State(ready, probing, epoch, retryAt, delay)
    }

    function Surroundings(): World
      reads this
    {
      World(View(), now, held, outage)
    }

    /** The gate is where some run can be. */
    ghost predicate Valid()
      reads this
    {
      Reachable(config, Surroundings())
    }

    constructor (minimum: Duration, maximum: Duration, now: Time)
      ensures Valid() && config == Config(minimum, maximum)
      ensures View() == State(false, false, 0, now, minimum) && held == multiset{} && this.now == now
    {
      ready, probing, epoch, retryAt, delay := false, false, 0, now, minimum;
      config := Config(minimum, maximum);
      this.now, held, outage := now, multiset{}, Outage(now, true, 0, 0, None);
      new;
      assert Run(config, [Surroundings()]);
    }

    /** A caller is turned away exactly while the gate is down and an exclusive probe is out or the wait is not over. */
    method BeginProbe() returns (probe: Option<Probe>)
      requires Valid()
      modifies this
      ensures Valid() && now == old(now)
      ensures probe.None? <==> old(!ready && (now < retryAt || exists p :: p in held && p.exclusive))
      ensures probe.None? ==> View() == old(View()) && held == old(held)
      ensures probe.Some? ==> probe.value == Probe(epoch, !ready) && held == old(held) + multiset{probe.value}
      ensures probe.Some? ==> View() == old(View()).(probing := !ready)
    {
      ExclusiveProbeOut(config, Surroundings());
      if !ready && (probing || now < retryAt) {
        return None;
      }
      StepIsReachable(config, Surroundings(), BeginAction);
      var exclusive := !ready;
      probing := probing || exclusive;
      held := held + multiset{Probe(epoch, exclusive)};
      outage := if exclusive then outage.(probes := outage.probes + 1) else outage;
      return Some(Probe(epoch, exclusive));
    }

    method IsBlocked() returns (blocked: bool)
      ensures blocked <==> Begin(View(), now).None?
    {
      blocked := !ready && (probing || now < retryAt);
    }

    /** A success counts exactly if its probe is of the current epoch; a stale one changes nothing. */
    method Succeeded(p: Probe)
      requires Valid() && p in held
      modifies this
      ensures Valid() && held == old(held) - multiset{p} && now == old(now)
      ensures p.epoch < old(epoch) ==> View() == old(View())
      ensures p.epoch >= old(epoch) ==> View() == old(View()).(ready := true, probing := false, delay := config.minimum)
    {
      HeldProbe(config, Surroundings(), p);
      StepIsReachable(config, Surroundings(), SucceedAction(p));
      held := held - multiset{p};
      if p.exclusive {
        probing := false;
      }
      if epoch == p.epoch {
        ready := true;
        delay := config.minimum;
        outage := outage.(failures := 0);
      }
    }

    /** So does a failure, which then takes the gate down, starts a new epoch and backs off. */
    method Failed(p: Probe)
      requires Valid() && p in held
      modifies this
      ensures Valid() && held == old(held) - multiset{p} && now == old(now)
      ensures p.epoch < old(epoch) ==> View() == old(View())
      ensures p.epoch >= old(epoch) ==>
                View() == State(false, false, old(epoch) + 1, now + old(delay), Min(2 * old(delay), config.maximum))
    {
      HeldProbe(config, Surroundings(), p);
      StepIsReachable(config, Surroundings(), FailAction(p));
      held := held - multiset{p};
      if p.exclusive {
        probing := false;
      }
      if epoch == p.epoch && (ready || p.exclusive) {
        outage := if ready then Outage(now, false, 1, 0, Some(now))
                  else outage.(failures := outage.failures + 1, last := Some(now));
        ready := false;
        epoch := epoch + 1;
        retryAt := now + delay;
        delay := Min(2 * delay, config.maximum);
      }
    }

    /** Anything other callers do, short of finishing our probe. */
    method OthersRun(mine: Probe)
      requires Valid() && mine in held
      modifies this
      ensures Valid() && mine in held && old(now) <= now && old(epoch) <= epoch
    {
      var steps: nat :| 0 <= steps;
      while steps > 0
        invariant Valid() && mine in held && old(now) <= now && old(epoch) <= epoch
      {
        var a: Action :| a == a;
        if Enabled(Surroundings(), a) && (a.SucceedAction? || a.FailAction? ==> a.p in held - multiset{mine}) {
          StepIsReachable(config, Surroundings(), a);
          EpochNeverDrops(config, Surroundings(), a);
          Become(Step(config, Surroundings(), a));
        }
        steps := steps - 1;
      }
    }

    method Become(w: World)
      modifies this
      ensures Surroundings() == w
    {
      ready, probing, epoch, retryAt, delay := w.s.ready, w.s.probing, w.s.epoch, w.s.retryAt, w.s.delay;
      now, held, outage := w.now, w.held, w.outage;
    }

    /**
      Checking out a connection under the gate, with other callers at work meanwhile.
      `checkout` tells whether the pool produced a connection before its deadline; a
      missing pool, a pool error and a deadline all drop the probe, which records a failure.
     */
    method GetConnection(checkout: bool) returns (connected: bool)
      requires Valid()
      modifies this
      ensures Valid() && old(epoch) <= epoch
      ensures connected <==> checkout && !old(Blocked(View(), now))
      ensures old(Blocked(View(), now)) ==> View() == old(View())
      // A connection leaves the gate open, unless somebody failed since.
      ensures connected ==> ready || epoch > old(epoch)
      // A failed checkout makes every probe from before it stale.
      ensures !connected && !old(Blocked(View(), now)) ==> epoch > old(epoch)
    {
      ExclusiveProbeOut(config, Surroundings());
      var probe := BeginProbe();
      if probe.None? {
        return false;
      }
      OthersRun(probe.value);
      if checkout {
        Succeeded(probe.value);
      } else {
        Failed(probe.value);
      }
      return checkout;
    }
  }

  // ---- Runs ----------------------------------------------------------------

  /**
    History of the outage in progress (or of the last one).  `failures` counts the
    failures since the last counted success, `probes` the exclusive probes begun in
    this outage, `since` is when it began; a cold gate starts out in an outage that
    no failure began.
   */
  datatype Outage = Outage(since: Time, cold: bool, failures: nat, probes: nat, last: Option<Time>)

  datatype World = World(s: State, now: Time, held: multiset<Probe>, outage: Outage)

  datatype Action =
    | BeginAction
    | SucceedAction(p: Probe)
    | FailAction(p: Probe)
    | Tick(elapsed: Duration)

  predicate Init(c: Config, w: World) {
    && w.s == State(false, false, 0, w.now, c.minimum)
    && w.held == multiset{}
    && w.outage == Outage(w.now, true, 0, 0, None)
  }

  predicate Enabled(w: World, a: Action) {
    match a
    case BeginAction => !Blocked(w.s, w.now)
    case SucceedAction(p) => p in w.held
    case FailAction(p) => p in w.held
    case Tick(_) => true
  }

  function Step(c: Config, w: World, a: Action): World
    requires Enabled(w, a)
  {
    match a
    case BeginAction =>
      var (s, p) := Begin(w.s, w.now).value;
      w.(s := s, held := w.held + multiset{p},
         outage := if p.exclusive then w.outage.(probes := w.outage.probes + 1) else w.outage)
    case SucceedAction(p) =>
      w.(s := Succeed(c, w.s, p), held := w.held - multiset{p},
         outage := if w.s.epoch == p.epoch then w.outage.(failures := 0) else w.outage)
    case FailAction(p) =>
      w.(s := Fail(c, w.s, p, w.now), held := w.held - multiset{p},
         outage :=
           if !Counts(w.s, p) then w.outage
           else if w.s.ready then Outage(w.now, false, 1, 0, Some(w.now))
           else w.outage.(failures := w.outage.failures + 1, last := Some(w.now)))
    case Tick(d) => w.(now := w.now + d)
  }

  ghost predicate Next(c: Config, w: World, w': World) {
    exists a :: Enabled(w, a) && w' == Step(c, w, a)
  }

  /** State i of the sequence follows from the one before. */
  ghost predicate Linked(c: Config, ws: seq<World>, i: nat)
    requires 0 < i < |ws|
  {
    Next(c, ws[i - 1], ws[i])
  }

  ghost predicate Run(c: Config, ws: seq<World>) {
    && |ws| > 0
    && Init(c, ws[0])
    && (forall i :: 0 < i < |ws| ==> Linked(c, ws, i))
  }

  /** At most one exclusive probe is out, it is current, and current shared probes mean ready. */
  ghost predicate SingleFlight(w: World) {
    && (w.s.probing ==> !w.s.ready && w.held[Probe(w.s.epoch, true)] == 1)
    && (forall p :: p in w.held && p.exclusive ==> w.s.probing && p.epoch == w.s.epoch)
    && (forall p :: p in w.held && !p.exclusive && p.epoch == w.s.epoch ==> w.s.ready)
    && (forall p :: p in w.held ==> p.epoch <= w.s.epoch)
  }

  function Pow2(k: nat): nat {
    if k == 0 then 1 else 2 * Pow2(k - 1)
  }

  /** The wait imposed by the failure that follows k counted failures. */
  function Backoff(c: Config, k: nat): Duration {
    if k == 0 then c.minimum else Min(c.minimum * Pow2(k), c.maximum)
  }

  function TotalBackoff(c: Config, k: nat): Duration {
    if k == 0 then 0 else TotalBackoff(c, k - 1) + Backoff(c, k - 1)
  }

  /** Failures an outage has counted when its next exclusive probe is the j-th (from 1). */
  function CountedBefore(o: Outage, j: nat): int {
    if o.cold then j - 1 else j
  }

  ghost predicate BackoffDiscipline(c: Config, w: World) {
    var o := w.outage;
    && w.s.delay == Backoff(c, o.failures)
    && (w.s.ready ==> o.failures == 0)
    && (!w.s.ready ==> o.failures == CountedBefore(o, o.probes + if w.s.probing then 0 else 1))
    && (!w.s.ready ==> o.since + TotalBackoff(c, o.failures) <= w.s.retryAt)
    && (w.s.probing ==> w.s.retryAt <= w.now)
    && (!w.s.ready && o.last.None? ==> w.s.retryAt <= w.now)
    && (!w.s.ready && o.last.Some? ==> w.s.retryAt <= o.last.value + Max(c.minimum, c.maximum))
    && (o.last.Some? ==> o.last.value <= w.now)
  }

  lemma BackoffDoubles(c: Config, k: nat)
    ensures Backoff(c, k + 1) == Min(2 * Backoff(c, k), c.maximum)
  {
    assert Pow2(k + 1) == 2 * Pow2(k);
    assert c.minimum * Pow2(k + 1) == 2 * (c.minimum * Pow2(k));
  }

  lemma StepKeepsSingleFlight(c: Config, w: World, a: Action)
    requires SingleFlight(w) && Enabled(w, a)
    ensures SingleFlight(Step(c, w, a))
  {
  }

  lemma FailureKeepsBackoff(c: Config, w: World, p: Probe)
    requires SingleFlight(w) && BackoffDiscipline(c, w) && p in w.held
    ensures BackoffDiscipline(c, Step(c, w, FailAction(p)))
  {
    var k := if w.s.ready then 0 else w.outage.failures;
    BackoffDoubles(c, k);
    assert TotalBackoff(c, k + 1) == TotalBackoff(c, k) + Backoff(c, k);
  }

  lemma StepKeepsBackoff(c: Config, w: World, a: Action)
    requires SingleFlight(w) && BackoffDiscipline(c, w) && Enabled(w, a)
    ensures BackoffDiscipline(c, Step(c, w, a))
  {
    if a.FailAction? {
      FailureKeepsBackoff(c, w, a.p);
    }
  }

  /** Both invariants hold in every state of every run. */
  lemma {:induction false} RunInvariants(c: Config, ws: seq<World>, i: nat)
    requires Run(c, ws) && i < |ws|
    ensures SingleFlight(ws[i]) && BackoffDiscipline(c, ws[i])
  {
    if i > 0 {
      RunInvariants(c, ws, i - 1);
      assert Linked(c, ws, i);
      var a :| Enabled(ws[i - 1], a) && ws[i] == Step(c, ws[i - 1], a);
      StepKeepsSingleFlight(c, ws[i - 1], a);
      StepKeepsBackoff(c, ws[i - 1], a);
    }
  }

  /** Some run of the gate ends in this world. */
  ghost predicate Reachable(c: Config, w: World) {
    exists ws :: Run(c, ws) && ws[|ws| - 1] == w
  }

  lemma StepIsReachable(c: Config, w: World, a: Action)
    requires Reachable(c, w) && Enabled(w, a)
    ensures Reachable(c, Step(c, w, a))
  {
    var ws :| Run(c, ws) && ws[|ws| - 1] == w;
    var w' := Step(c, w, a);
    assert Next(c, w, w');
    RunExtends(c, ws, w');
  }

  lemma RunExtends(c: Config, ws: seq<World>, w: World)
    requires Run(c, ws) && Next(c, ws[|ws| - 1], w)
    ensures Run(c, ws + [w]) && (ws + [w])[|ws|] == w
  {
    var more := ws + [w];
    forall i | 0 < i < |more|
      ensures Linked(c, more, i)
    {
      assert i < |ws| ==> Linked(c, ws, i);
    }
  }

  lemma ReachableIsOrderly(c: Config, w: World)
    requires Reachable(c, w)
    ensures SingleFlight(w)
  {
    var ws :| Run(c, ws) && ws[|ws| - 1] == w;
    RunInvariants(c, ws, |ws| - 1);
  }

  /** A probe in somebody's hands is stale, or current in a gate that matches its kind. */
  lemma HeldProbe(c: Config, w: World, p: Probe)
    requires Reachable(c, w) && p in w.held
    ensures p.epoch < w.s.epoch ==> !p.exclusive
    ensures p.epoch >= w.s.epoch ==> p.epoch == w.s.epoch && (p.exclusive <==> !w.s.ready) && (p.exclusive <==> w.s.probing)
  {
    ReachableIsOrderly(c, w);
  }

  lemma ExclusiveProbeOut(c: Config, w: World)
    requires Reachable(c, w)
    ensures w.s.probing <==> exists p :: p in w.held && p.exclusive
    ensures w.s.probing ==> !w.s.ready
  {
    ReachableIsOrderly(c, w);
    if w.s.probing {
      assert Probe(w.s.epoch, true) in w.held;
    }
  }

  /**
    A success arriving after a newer failure never reopens the gate: while the gate
    is down, only the one exclusive probe of the current epoch can make it ready.
   */
  lemma LateSuccessNeverReopens(c: Config, ws: seq<World>, i: nat, p: Probe)
    requires Run(c, ws) && i < |ws|
    requires !ws[i].s.ready && p in ws[i].held
    ensures Succeed(c, ws[i].s, p).ready <==> ws[i].s.probing && p == Probe(ws[i].s.epoch, true)
    ensures !Succeed(c, ws[i].s, p).ready ==> Succeed(c, ws[i].s, p) == ws[i].s
  {
    RunInvariants(c, ws, i);
  }

  /**
    A probe issued before a counted failure is stale for ever after: whatever it
    reports, the gate ignores it.
   */
  lemma OutlivedProbeIsIgnored(c: Config, ws: seq<World>, i: nat, j: nat, p: Probe, q: Probe, now: Time)
    requires Run(c, ws) && i < j < |ws|
    requires p in ws[i].held && !p.exclusive
    requires q in ws[i].held && Counts(ws[i].s, q) && ws[i + 1] == Step(c, ws[i], FailAction(q))
    ensures Succeed(c, ws[j].s, p) == ws[j].s && Fail(c, ws[j].s, p, now) == ws[j].s
  {
    RunInvariants(c, ws, i);
    CountedFailureRaisesEpoch(c, ws[i], q);
    EpochGrows(c, ws, i + 1, j);
    StaleProbeIsIgnored(c, ws[j].s, p, now);
  }

  lemma CountedFailureRaisesEpoch(c: Config, w: World, q: Probe)
    requires q in w.held && Counts(w.s, q)
    ensures Step(c, w, FailAction(q)).s.epoch == w.s.epoch + 1
  {
  }

  lemma StaleProbeIsIgnored(c: Config, s: State, p: Probe, now: Time)
    requires p.epoch != s.epoch && !p.exclusive
    ensures Succeed(c, s, p) == s && Fail(c, s, p, now) == s
  {
  }

  lemma EpochNeverDrops(c: Config, w: World, a: Action)
    requires Enabled(w, a)
    ensures w.s.epoch <= Step(c, w, a).s.epoch
  {
  }

  lemma {:induction false} EpochGrows(c: Config, ws: seq<World>, i: nat, j: nat)
    requires Run(c, ws) && i <= j < |ws|
    ensures ws[i].s.epoch <= ws[j].s.epoch
  {
    if i < j {
      EpochGrows(c, ws, i, j - 1);
      assert Linked(c, ws, j);
      var a :| Enabled(ws[j - 1], a) && ws[j] == Step(c, ws[j - 1], a);
      EpochNeverDrops(c, ws[j - 1], a);
    }
  }

  /** Failing several probes one after the other, each at its own time. */
  function FailAll(c: Config, s: State, ps: seq<Probe>, at: seq<Time>): State
    requires |ps| == |at|
    decreases |ps|
  {
    if ps == [] then s else FailAll(c, Fail(c, s, ps[0], at[0]), ps[1..], at[1..])
  }

  lemma {:induction false} StaleFailuresIgnored(c: Config, s: State, ps: seq<Probe>, at: seq<Time>)
    requires |ps| == |at|
    requires forall p :: p in ps ==> !p.exclusive && p.epoch != s.epoch
    ensures FailAll(c, s, ps, at) == s
  {
    if ps != [] {
      assert ps[0] in ps;
      StaleFailuresIgnored(c, s, ps[1..], at[1..]);
    }
  }

  /** However many shared probes of one ready epoch fail, the burst counts once. */
  lemma BurstCountsOnce(c: Config, s: State, ps: seq<Probe>, at: seq<Time>)
    requires |ps| == |at| > 0 && s.ready
    requires forall p :: p in ps ==> p == Probe(s.epoch, false)
    ensures FailAll(c, s, ps, at) == s.(ready := false, epoch := s.epoch + 1,
                                        retryAt := at[0] + s.delay, delay := Min(2 * s.delay, c.maximum))
  {
    assert ps[0] in ps;
    forall p | p in ps[1..]
      ensures p in ps
    {}
    StaleFailuresIgnored(c, Fail(c, s, ps[0], at[0]), ps[1..], at[1..]);
  }

  /** Over a run, two failures that count come from different epochs. */
  lemma CountedFailuresHaveDistinctEpochs(c: Config, ws: seq<World>, i: nat, j: nat, p: Probe, q: Probe)
    requires Run(c, ws) && i < j < |ws| - 1
    requires p in ws[i].held && Counts(ws[i].s, p) && ws[i + 1] == Step(c, ws[i], FailAction(p))
    requires q in ws[j].held && Counts(ws[j].s, q) && ws[j + 1] == Step(c, ws[j], FailAction(q))
    ensures p.epoch < q.epoch
  {
    CountedFailureRaisesEpoch(c, ws[i], p);
    EpochGrows(c, ws, i + 1, j);
  }

  /**
    The j-th exclusive probe of an outage starts no earlier than the sum of the
    backoffs imposed before it, measured from the beginning of the outage.
   */
  lemma ExclusiveProbesAreSpaced(c: Config, ws: seq<World>, i: nat)
    requires Run(c, ws) && i < |ws| - 1
    requires !ws[i].s.ready && Enabled(ws[i], BeginAction) && ws[i + 1] == Step(c, ws[i], BeginAction)
    ensures var o := ws[i + 1].outage;
            && CountedBefore(o, o.probes) >= 0
            && o.since + TotalBackoff(c, CountedBefore(o, o.probes)) <= ws[i].now
  {
    RunInvariants(c, ws, i);
  }

  /**
    Once the larger delay has passed since the last counted failure (at once on a
    cold gate), a caller is turned away only while an exclusive probe is out.
   */
  lemma GateReopensForProbing(c: Config, ws: seq<World>, i: nat)
    requires Run(c, ws) && i < |ws|
    requires ws[i].outage.last.Some? ==>
               ws[i].outage.last.value + Max(c.minimum, c.maximum) <= ws[i].now
    ensures Blocked(ws[i].s, ws[i].now) <==> exists p :: p in ws[i].held && p.exclusive
  {
    RunInvariants(c, ws, i);
    if ws[i].s.probing {
      assert Probe(ws[i].s.epoch, true) in ws[i].held;
    }
  }

  /**
    The delay in force after k counted failures is min(minimum * 2^k, maximum); the
    only exception is a gate configured with minimum above maximum that has not
    failed since its last success.
   */
  lemma DelayIsCappedExponential(c: Config, ws: seq<World>, i: nat)
    requires Run(c, ws) && i < |ws|
    ensures ws[i].s.delay == Min(c.minimum * Pow2(ws[i].outage.failures), c.maximum)
            <==> ws[i].outage.failures > 0 || c.minimum <= c.maximum
  {
    RunInvariants(c, ws, i);
  }
}
