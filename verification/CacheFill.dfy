/**
  Cache keys and the lock-protected cache fill
  (crates/keycompute-cache/src/lib.rs, get_or_insert_with_lock).
 */
module CacheKeys {

  const NULL_MARKER_SUFFIX: string := "::null_marker"

  function BuildKey(prefix: string, key: string): string {
    prefix + key
  }

  function BuildNullKey(prefix: string, key: string): string {
    prefix + key + NULL_MARKER_SUFFIX
  }

  function BuildLockKey(prefix: string, key: string): string {
    prefix + "lock:" + key
  }

  /** Entries of one service never share a Redis key, and neither do its markers or its locks. */
  lemma BuildersAreInjective(prefix: string, a: string, b: string)
    ensures BuildKey(prefix, a) == BuildKey(prefix, b) <==> a == b
    ensures BuildNullKey(prefix, a) == BuildNullKey(prefix, b) <==> a == b
    ensures BuildLockKey(prefix, a) == BuildLockKey(prefix, b) <==> a == b
  {
    Cancel(prefix, a, b);
    Cancel(prefix + "lock:", a, b);
    if BuildNullKey(prefix, a) == BuildNullKey(prefix, b) {
      assert |a| == |b|;
      var n := |prefix + a|;
      assert BuildNullKey(prefix, a)[..n] == prefix + a;
      assert BuildNullKey(prefix, b)[..n] == prefix + b;
    }
  }

  lemma Cancel(head: string, a: string, b: string)
    ensures head + a == head + b <==> a == b
  {
    assert (head + a)[|head|..] == a && (head + b)[|head|..] == b;
  }

  /** An entry can be mistaken for a marker exactly when its key ends in the marker suffix. */
  lemma EntryMeetsMarker(prefix: string, a: string, b: string)
    ensures BuildKey(prefix, a) == BuildNullKey(prefix, b) <==> a == b + NULL_MARKER_SUFFIX
  {
    Cancel(prefix, a, b + NULL_MARKER_SUFFIX);
    assert prefix + b + NULL_MARKER_SUFFIX == prefix + (b + NULL_MARKER_SUFFIX);
  }

  /** An entry can be mistaken for a lock exactly when its key starts with the lock infix. */
  lemma EntryMeetsLock(prefix: string, a: string, b: string)
    ensures BuildKey(prefix, a) == BuildLockKey(prefix, b) <==> a == "lock:" + b
  {
    Cancel(prefix, a, "lock:" + b);
    assert prefix + "lock:" + b == prefix + ("lock:" + b);
  }
}

module CacheFill {
  import opened Common
  import opened DistributedLock

  type Data = int

  datatype Outcome = Returned(data: Data) | Failed

  /** How a caller came to run the fallback: by the gate, without the lock, or holding it. */
  datatype Mode = Bypass | Unlocked | Locked

  /** Where a call of get_or_insert_with_lock stands. */
  datatype Pc =
    | FastPath
    | NullCheck
    | Contend
    | DoubleCheck
    | Poll(left: nat)
    | Compute(mode: Mode)
    | Populate(mode: Mode, data: Data)
    | Unlock(outcome: Outcome)     // the guard is dropped, its release is still to run
    | Done(outcome: Outcome)

  datatype Call = Call(pc: Pc, deadline: Time)

  /**
    One cached key.  `entry` is the cached value, `lock` the slot of its lock key.
    `produced` collects what fallbacks returned and `locked` the calls whose fallback
    succeeded under the lock.  `overran` tells that some call still worked under a
    lock that had expired; `faults` counts cache errors, removals of the entry, and calls
    cancelled between their success and the filling of the cache.
   */
  datatype Fill = Fill(entry: Option<Data>, lock: Option<Entry>, now: Time, calls: seq<Call>,
                       initial: Option<Data>, produced: set<Data>, locked: seq<nat>, overran: bool, faults: nat)

  datatype Action =
    | Arrive
    | FastGet(c: nat)
    | FastGetMisses(c: nat)        // no connection: reads as a miss
    | FastGetError(c: nat)
    | CheckNull(c: nat, marked: bool)
    | GateBlocked(c: nat)
    | Acquire(c: nat)
    | GiveUpAcquire(c: nat, polls: nat)
    | AcquireError(c: nat, taken: bool)
    | SecondGet(c: nat)
    | SecondGetError(c: nat)
    | PollGet(c: nat)
    | PollError(c: nat)
    | FallbackOk(c: nat, data: Data)
    | FallbackFails(c: nat)
    | SetEntry(c: nat)
    | SetEntryFails(c: nat)
    | ReleaseLock(c: nat)
    | ReleaseLost(c: nat)
    | Cancel(c: nat)
    | EntryRemoved
    | Tick(elapsed: Duration)

  predicate At(s: Fill, c: nat, pc: Pc) {
    c < |s.calls| && s.calls[c].pc == pc
  }

  predicate Enabled(ttl: Duration, s: Fill, a: Action) {
    match a
    case Arrive => true
    case FastGet(c) => At(s, c, FastPath)
    case FastGetMisses(c) => At(s, c, FastPath)
    case FastGetError(c) => At(s, c, FastPath)
    case CheckNull(c, _) => At(s, c, NullCheck)
    case GateBlocked(c) => At(s, c, Contend)
    case Acquire(c) => At(s, c, Contend) && !Live(s.lock, s.now) && ttl > 0
    case GiveUpAcquire(c, polls) => At(s, c, Contend) && (Live(s.lock, s.now) || polls == 0)
    case AcquireError(c, taken) => At(s, c, Contend) && (taken ==> ttl > 0)
    case SecondGet(c) => At(s, c, DoubleCheck)
    case SecondGetError(c) => At(s, c, DoubleCheck)
    case PollGet(c) => c < |s.calls| && s.calls[c].pc.Poll?
    case PollError(c) => c < |s.calls| && s.calls[c].pc.Poll?
    case FallbackOk(c, _) => c < |s.calls| && s.calls[c].pc.Compute?
    case FallbackFails(c) => c < |s.calls| && s.calls[c].pc.Compute?
    case SetEntry(c) => c < |s.calls| && s.calls[c].pc.Populate?
    case SetEntryFails(c) => c < |s.calls| && s.calls[c].pc.Populate?
    case ReleaseLock(c) => c < |s.calls| && s.calls[c].pc.Unlock?
    case ReleaseLost(c) => c < |s.calls| && s.calls[c].pc.Unlock?
    case Cancel(c) => c < |s.calls| && !s.calls[c].pc.Unlock? && !s.calls[c].pc.Done?
    case EntryRemoved => true
    case Tick(_) => true
  }

  function To(s: Fill, c: nat, pc: Pc): Fill
    requires c < |s.calls|
  {
    s.(calls := s.calls[c := s.calls[c].(pc := pc)])
  }

  /** Return from a call, dropping the guard first if there is one. */
  function Leave(s: Fill, c: nat, mode: Mode, outcome: Outcome): Fill
    requires c < |s.calls|
  {
    To(s, c, if mode == Locked then Unlock(outcome) else Done(outcome))
  }

  /** The call works under its lock. */
  predicate UnderLock(pc: Pc) {
    pc.DoubleCheck? || pc == Compute(Locked) || (pc.Populate? && pc.mode == Locked)
  }

  predicate Overrun(s: Fill, later: Time) {
    exists c :: 0 <= c < |s.calls| && UnderLock(s.calls[c].pc) && s.calls[c].deadline <= later
  }

  function Step(ttl: Duration, s: Fill, a: Action): Fill
    requires Enabled(ttl, s, a)
  {
    match a
    case Arrive => s.(calls := s.calls + [Call(FastPath, 0)])
    case FastGet(c) => if s.entry.Some? then To(s, c, Done(Returned(s.entry.value))) else To(s, c, NullCheck)
    case FastGetMisses(c) => To(s, c, NullCheck)
    case FastGetError(c) => To(s, c, Done(Failed))
    case CheckNull(c, marked) => To(s, c, if marked then Done(Failed) else Contend)
    case GateBlocked(c) => To(s, c, Compute(Bypass))
    case Acquire(c) =>
      s.(lock := SetNx(s.lock, c, ttl, s.now), calls := s.calls[c := Call(DoubleCheck, s.now + ttl)])
    case GiveUpAcquire(c, polls) => To(s, c, Poll(polls))
    case AcquireError(c, taken) =>
      To(if taken then s.(lock := SetNx(s.lock, c, ttl, s.now)) else s, c, Compute(Unlocked))
    case SecondGet(c) =>
      if s.entry.Some? then To(s, c, Unlock(Returned(s.entry.value))) else To(s, c, Compute(Locked))
    case SecondGetError(c) => To(s, c, Compute(Locked)).(faults := s.faults + 1)
    case PollGet(c) =>
      if s.calls[c].pc.left == 0 then To(s, c, Compute(Unlocked))
      else if s.entry.Some? then To(s, c, Done(Returned(s.entry.value)))
      else To(s, c, Poll(s.calls[c].pc.left - 1))
    case PollError(c) =>
      if s.calls[c].pc.left == 0 then To(s, c, Compute(Unlocked)) else To(s, c, Poll(s.calls[c].pc.left - 1))
    case FallbackOk(c, data) =>
      var mode := s.calls[c].pc.mode;
      To(s, c, if mode == Bypass then Done(Returned(data)) else Populate(mode, data))
        .(produced := s.produced + {data}, locked := if mode == Locked then s.locked + [c] else s.locked)
    case FallbackFails(c) => Leave(s, c, s.calls[c].pc.mode, Failed)
    case SetEntry(c) =>
      Leave(s, c, s.calls[c].pc.mode, Returned(s.calls[c].pc.data)).(entry := Some(s.calls[c].pc.data))
    case SetEntryFails(c) =>
      Leave(s, c, s.calls[c].pc.mode, Returned(s.calls[c].pc.data)).(faults := s.faults + 1)
    case ReleaseLock(c) =>
      To(s, c, Done(s.calls[c].pc.outcome)).(lock := SafeRelease(s.lock, c, s.now))
    case ReleaseLost(c) => To(s, c, Done(s.calls[c].pc.outcome))
    case Cancel(c) =>
      To(s, c, if UnderLock(s.calls[c].pc) then Unlock(Failed) else Done(Failed))
        .(faults := if s.calls[c].pc.Populate? then s.faults + 1 else s.faults)
    case EntryRemoved => s.(entry := None, faults := s.faults + 1)
    case Tick(d) => s.(now := s.now + d, overran := s.overran || Overrun(s, s.now + d))
  }

  // ---- The program of one call --------------------------------------------------------

  /** What one step of a call sees or does. */
  datatype Sight =
    | Hit(data: Data) | Miss | Broken
    | Marked | Unmarked
    | Gated | Taken | Busy(polls: nat)
    | Spent
    | Gave(data: Data) | Stored | Released

  /** Where a call goes on from what it sees. */
  function NextPc(pc: Pc, sight: Sight): Option<Pc> {
    match (pc, sight)
    case (FastPath, Hit(data)) => Some(Done(Returned(data)))
    case (FastPath, Miss) => Some(NullCheck)
    case (FastPath, Broken) => Some(Done(Failed))
    case (NullCheck, Unmarked) => Some(Contend)
    case (NullCheck, Marked) => Some(Done(Failed))
    case (NullCheck, Broken) => Some(Done(Failed))
    case (Contend, Gated) => Some(Compute(Bypass))
    case (Contend, Taken) => Some(DoubleCheck)
    case (Contend, Busy(polls)) => Some(Poll(polls))
    case (Contend, Broken) => Some(Compute(Unlocked))
    case (DoubleCheck, Hit(data)) => Some(Unlock(Returned(data)))
    case (DoubleCheck, Miss) => Some(Compute(Locked))
    case (DoubleCheck, Broken) => Some(Compute(Locked))
    case (Poll(left), Spent) => if left == 0 then Some(Compute(Unlocked)) else None
    case (Poll(left), Hit(data)) => if left == 0 then None else Some(Done(Returned(data)))
    case (Poll(left), Miss) => if left == 0 then None else Some(Poll(left - 1))
    case (Poll(left), Broken) => if left == 0 then None else Some(Poll(left - 1))
    case (Compute(mode), Gave(data)) => Some(if mode == Bypass then Done(Returned(data)) else Populate(mode, data))
    case (Compute(mode), Broken) => Some(if mode == Locked then Unlock(Failed) else Done(Failed))
    case (Populate(mode, data), Stored) => Some(if mode == Locked then Unlock(Returned(data)) else Done(Returned(data)))
    case (Populate(mode, data), Broken) => Some(if mode == Locked then Unlock(Returned(data)) else Done(Returned(data)))
    case (Unlock(outcome), Released) => Some(Done(outcome))
    case _ => None
  }

  /** The step is one of the call's own program: neither an arrival, a cancellation nor the world's. */
  predicate OfProgram(a: Action) {
    !a.Arrive? && !a.Cancel? && !a.EntryRemoved? && !a.Tick?
  }

  function Glance(s: Fill): Sight {
    if s.entry.Some? then Hit(s.entry.value) else Miss
  }

  /** What the step sees in this state. */
  function SightOf(s: Fill, a: Action): Sight
    requires OfProgram(a) && a.c < |s.calls|
  {
    match a
    case FastGet(_) => Glance(s)
    case FastGetMisses(_) => Miss
    case CheckNull(_, marked) => if marked then Marked else Unmarked
    case GateBlocked(_) => Gated
    case Acquire(_) => Taken
    case GiveUpAcquire(_, polls) => Busy(polls)
    case SecondGet(_) => Glance(s)
    case PollGet(c) => if s.calls[c].pc == Poll(0) then Spent else Glance(s)
    case PollError(c) => if s.calls[c].pc == Poll(0) then Spent else Broken
    case FallbackOk(_, data) => Gave(data)
    case SetEntry(_) => Stored
    case ReleaseLock(_) => Released
    case ReleaseLost(_) => Released
    case _ => Broken
  }

  /** Every step of a call in a run is a step of the program. */
  lemma StepFollowsProgram(ttl: Duration, s: Fill, a: Action)
    requires Enabled(ttl, s, a) && OfProgram(a)
    ensures a.c < |s.calls| == |Step(ttl, s, a).calls|
    ensures NextPc(s.calls[a.c].pc, SightOf(s, a)) == Some(Step(ttl, s, a).calls[a.c].pc)
  {
  }

  ghost predicate Next(ttl: Duration, s: Fill, s': Fill) {
    exists a :: Enabled(ttl, s, a) && s' == Step(ttl, s, a)
  }

  /** State i of the sequence follows from the one before. */
  ghost predicate Linked(ttl: Duration, ss: seq<Fill>, i: nat)
    requires 0 < i < |ss|
  {
    Next(ttl, ss[i - 1], ss[i])
  }

  ghost predicate Run(ttl: Duration, ss: seq<Fill>) {
    && |ss| > 0
    && ss[0] == Fill(ss[0].initial, None, ss[0].now, [], ss[0].initial, {}, [], false, 0)
    && (forall i :: 0 < i < |ss| ==> Linked(ttl, ss, i))
  }

  // ---- Where values come from -------------------------------------------------

  predicate Known(s: Fill, data: Data) {
    s.initial == Some(data) || data in s.produced
  }

  function Carried(pc: Pc): Option<Data> {
    match pc
    case Populate(_, data) => Some(data)
    case Unlock(Returned(data)) => Some(data)
    case Done(Returned(data)) => Some(data)
    case _ => None
  }

  predicate Provenance(s: Fill) {
    && (s.entry.Some? ==> Known(s, s.entry.value))
    && (forall c :: 0 <= c < |s.calls| && Carried(s.calls[c].pc).Some? ==> Known(s, Carried(s.calls[c].pc).value))
  }

  lemma KnownStays(ttl: Duration, s: Fill, a: Action, data: Data)
    requires Enabled(ttl, s, a) && Known(s, data)
    ensures Known(Step(ttl, s, a), data)
  {
  }

  /** Whatever a call carries after a step it carried, read from the cache, or just computed. */
  lemma CarriedComesFrom(ttl: Duration, s: Fill, a: Action, c: nat)
    requires Enabled(ttl, s, a) && c < |Step(ttl, s, a).calls| && Carried(Step(ttl, s, a).calls[c].pc).Some?
    ensures var v := Carried(Step(ttl, s, a).calls[c].pc).value;
            || (c < |s.calls| && Carried(s.calls[c].pc) == Some(v)) || s.entry == Some(v) || a == FallbackOk(c, v)
  {
  }

  lemma EntryComesFrom(ttl: Duration, s: Fill, a: Action)
    requires Enabled(ttl, s, a) && Step(ttl, s, a).entry.Some?
    ensures Step(ttl, s, a).entry == s.entry
         || (a.SetEntry? && Step(ttl, s, a).entry == Carried(s.calls[a.c].pc))
  {
  }

  lemma StepKeepsProvenance(ttl: Duration, s: Fill, a: Action)
    requires Provenance(s) && Enabled(ttl, s, a)
    ensures Provenance(Step(ttl, s, a))
  {
    var s' := Step(ttl, s, a);
    if s'.entry.Some? {
      EntryComesFrom(ttl, s, a);
      KnownStays(ttl, s, a, s'.entry.value);
    }
    forall c | 0 <= c < |s'.calls| && Carried(s'.calls[c].pc).Some?
      ensures Known(s', Carried(s'.calls[c].pc).value)
    {
      CarriedComesFrom(ttl, s, a, c);
      var v := Carried(s'.calls[c].pc).value;
      if a == FallbackOk(c, v) {
        assert v in s'.produced;
      } else {
        KnownStays(ttl, s, a, v);
      }
    }
  }

  // ---- Exclusion ----------------------------------------------------------------

  /** As long as no call overran its lock, the server records each call that works under it. */
  predicate LockedCallsAreRecorded(s: Fill) {
    forall c :: 0 <= c < |s.calls| && UnderLock(s.calls[c].pc) ==>
      s.now < s.calls[c].deadline && s.lock == Some(Entry(c, s.calls[c].deadline))
  }

  predicate Populating(s: Fill) {
    exists c :: 0 <= c < |s.calls| && s.calls[c].pc.Populate? && s.calls[c].pc.mode == Locked
  }

  /** A success under the lock is about to fill the cache, or has; then no other can start. */
  predicate SingleSuccess(s: Fill) {
    && |s.locked| <= 1
    && (s.locked != [] ==> s.entry.Some? || Populating(s))
    && (s.locked != [] ==> forall c :: 0 <= c < |s.calls| ==> s.calls[c].pc != Compute(Locked))
  }

  /** The only way to come to work under the lock is to acquire it. */
  lemma LockEntered(ttl: Duration, s: Fill, a: Action, c: nat)
    requires Enabled(ttl, s, a) && c < |Step(ttl, s, a).calls| && UnderLock(Step(ttl, s, a).calls[c].pc)
    ensures c < |s.calls|
    ensures a == Acquire(c) || (UnderLock(s.calls[c].pc) && Step(ttl, s, a).calls[c].deadline == s.calls[c].deadline)
  {
    OneCallMoves(ttl, s, a);
    if !(a.Arrive? || a.EntryRemoved? || a.Tick? || a.Acquire?) && c == a.c {
      OwnStepUnderLock(ttl, s, a);
    }
  }

  /** A step moves its own call only, and only an acquisition sets a deadline. */
  lemma OneCallMoves(ttl: Duration, s: Fill, a: Action)
    requires Enabled(ttl, s, a)
    ensures a.Arrive? ==> Step(ttl, s, a).calls == s.calls + [Call(FastPath, 0)]
    ensures a.EntryRemoved? || a.Tick? ==> Step(ttl, s, a).calls == s.calls
    ensures !(a.Arrive? || a.EntryRemoved? || a.Tick?) ==>
              && a.c < |s.calls| == |Step(ttl, s, a).calls|
              && Step(ttl, s, a).calls == s.calls[a.c := Step(ttl, s, a).calls[a.c]]
  {
  }

  lemma OwnStepUnderLock(ttl: Duration, s: Fill, a: Action)
    requires Enabled(ttl, s, a) && !(a.Arrive? || a.EntryRemoved? || a.Tick? || a.Acquire?)
    requires a.c < |s.calls| == |Step(ttl, s, a).calls| && UnderLock(Step(ttl, s, a).calls[a.c].pc)
    ensures UnderLock(s.calls[a.c].pc) && Step(ttl, s, a).calls[a.c].deadline == s.calls[a.c].deadline
  {
  }

  /** While it works in time, nobody takes a call's lock from it. */
  lemma LockStays(ttl: Duration, s: Fill, a: Action, c: nat)
    requires Enabled(ttl, s, a) && c < |s.calls| && UnderLock(s.calls[c].pc) && !Step(ttl, s, a).overran
    requires s.now < s.calls[c].deadline && s.lock == Some(Entry(c, s.calls[c].deadline))
    ensures Step(ttl, s, a).lock == s.lock && Step(ttl, s, a).now < s.calls[c].deadline
  {
  }

  lemma StepKeepsRecorded(ttl: Duration, s: Fill, a: Action)
    requires Enabled(ttl, s, a) && LockedCallsAreRecorded(s) && !Step(ttl, s, a).overran
    ensures LockedCallsAreRecorded(Step(ttl, s, a))
  {
    var s' := Step(ttl, s, a);
    forall c | 0 <= c < |s'.calls| && UnderLock(s'.calls[c].pc)
      ensures s'.now < s'.calls[c].deadline && s'.lock == Some(Entry(c, s'.calls[c].deadline))
    {
      LockEntered(ttl, s, a, c);
      if a != Acquire(c) {
        LockStays(ttl, s, a, c);
      }
    }
  }

  /** Without faults, a populating call stays one until it fills the cache. */
  lemma FillingGoesOn(ttl: Duration, s: Fill, a: Action)
    requires Enabled(ttl, s, a) && Step(ttl, s, a).faults == 0
    requires s.entry.Some? || Populating(s)
    ensures Step(ttl, s, a).entry.Some? || Populating(Step(ttl, s, a))
  {
    var s' := Step(ttl, s, a);
    if s.entry.None? {
      var p :| 0 <= p < |s.calls| && s.calls[p].pc.Populate? && s.calls[p].pc.mode == Locked;
      if a != SetEntry(p) {
        assert s'.calls[p].pc == s.calls[p].pc;
      }
    }
  }

  /** The only ways into the fallback under the lock. */
  lemma FallbackEntered(ttl: Duration, s: Fill, a: Action, d: nat)
    requires Enabled(ttl, s, a) && d < |Step(ttl, s, a).calls| && Step(ttl, s, a).calls[d].pc == Compute(Locked)
    ensures d < |s.calls|
    ensures s.calls[d].pc == Compute(Locked) || (a == SecondGet(d) && s.entry.None?) || a == SecondGetError(d)
  {
  }

  /** A call reaches the fallback under the lock only by a miss, which a success precludes. */
  lemma NoSecondFallback(ttl: Duration, s: Fill, a: Action, d: nat)
    requires Enabled(ttl, s, a) && Step(ttl, s, a).faults == 0
    requires LockedCallsAreRecorded(s) && SingleSuccess(s) && s.locked != []
    requires d < |Step(ttl, s, a).calls|
    ensures Step(ttl, s, a).calls[d].pc != Compute(Locked)
  {
    if Step(ttl, s, a).calls[d].pc == Compute(Locked) {
      FallbackEntered(ttl, s, a, d);
      assert UnderLock(s.calls[d].pc);
      if a == SecondGet(d) {
        var p :| 0 <= p < |s.calls| && s.calls[p].pc.Populate? && s.calls[p].pc.mode == Locked;
        assert UnderLock(s.calls[p].pc);
      }
    }
  }

  lemma FirstSuccess(ttl: Duration, s: Fill, c: nat, data: Data)
    requires Enabled(ttl, s, FallbackOk(c, data)) && s.calls[c].pc.mode == Locked
    requires LockedCallsAreRecorded(s) && SingleSuccess(s)
    ensures SingleSuccess(Step(ttl, s, FallbackOk(c, data)))
  {
    var s' := Step(ttl, s, FallbackOk(c, data));
    assert s.locked == [];
    assert s'.calls[c].pc == Populate(Locked, data);
    assert Populating(s');
    assert UnderLock(s.calls[c].pc);
    forall d | 0 <= d < |s'.calls|
      ensures s'.calls[d].pc != Compute(Locked)
    {
      assert s.calls[d].pc == Compute(Locked) ==> UnderLock(s.calls[d].pc);
    }
  }

  lemma StepKeepsSingleSuccess(ttl: Duration, s: Fill, a: Action)
    requires Enabled(ttl, s, a) && LockedCallsAreRecorded(s) && SingleSuccess(s)
    requires Step(ttl, s, a).faults == 0
    ensures SingleSuccess(Step(ttl, s, a))
  {
    if a.FallbackOk? && s.calls[a.c].pc.mode == Locked {
      FirstSuccess(ttl, s, a.c, a.data);
    } else {
      assert Step(ttl, s, a).locked == s.locked;
      if s.locked != [] {
        FillingGoesOn(ttl, s, a);
        forall d | 0 <= d < |Step(ttl, s, a).calls|
          ensures Step(ttl, s, a).calls[d].pc != Compute(Locked)
        {
          NoSecondFallback(ttl, s, a, d);
        }
      }
    }
  }

  /** Histories only grow, so a clean state was clean all along. */
  lemma StepKeepsHistory(ttl: Duration, s: Fill, a: Action)
    requires Enabled(ttl, s, a)
    ensures s.overran ==> Step(ttl, s, a).overran
    ensures s.faults <= Step(ttl, s, a).faults
  {
  }

  lemma {:induction false} RunInvariants(ttl: Duration, ss: seq<Fill>, i: nat)
    requires Run(ttl, ss) && i < |ss|
    ensures Provenance(ss[i])
    ensures !ss[i].overran ==> LockedCallsAreRecorded(ss[i])
    ensures !ss[i].overran && ss[i].faults == 0 ==> SingleSuccess(ss[i])
  {
    if i > 0 {
      RunInvariants(ttl, ss, i - 1);
      assert Linked(ttl, ss, i);
      var a :| Enabled(ttl, ss[i - 1], a) && ss[i] == Step(ttl, ss[i - 1], a);
      StepKeepsProvenance(ttl, ss[i - 1], a);
      StepKeepsHistory(ttl, ss[i - 1], a);
      if !ss[i].overran {
        StepKeepsRecorded(ttl, ss[i - 1], a);
        if ss[i].faults == 0 {
          StepKeepsSingleSuccess(ttl, ss[i - 1], a);
        }
      }
    }
  }

  /** Whatever a call returns was cached at the start or produced by a fallback of this key. */
  lemma ReturnedValuesHaveASource(ttl: Duration, ss: seq<Fill>, i: nat, c: nat, data: Data)
    requires Run(ttl, ss) && i < |ss| && c < |ss[i].calls| && ss[i].calls[c].pc == Done(Returned(data))
    ensures ss[i].initial == Some(data) || data in ss[i].produced
  {
    RunInvariants(ttl, ss, i);
  }

  /** Fallbacks under the lock never overlap while every one ends within its time to live. */
  lemma LockedFallbacksNeverOverlap(ttl: Duration, ss: seq<Fill>, i: nat, c: nat, d: nat)
    requires Run(ttl, ss) && i < |ss| && !ss[i].overran
    requires c < |ss[i].calls| && d < |ss[i].calls|
    requires UnderLock(ss[i].calls[c].pc) && UnderLock(ss[i].calls[d].pc)
    ensures c == d
  {
    RunInvariants(ttl, ss, i);
  }

  /** With no cache error and no removal besides, at most one of them succeeds. */
  lemma AtMostOneLockedSuccess(ttl: Duration, ss: seq<Fill>, i: nat)
    requires Run(ttl, ss) && i < |ss| && !ss[i].overran && ss[i].faults == 0
    ensures |ss[i].locked| <= 1
  {
    RunInvariants(ttl, ss, i);
  }
}
