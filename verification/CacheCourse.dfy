/**
  The course of one call of get_or_insert_with_lock
  (crates/keycompute-cache/src/lib.rs, lines 490-625), as a log of its steps with what the
  cache and the locks were at each.

  A course follows the program that the calls of `CacheFill` follow; what it means that a
  call holds the lock, waits for another or computes is proved of every course.
 */
module CacheCourses {
  import opened Common
  import opened CacheKeys
  import opened DistributedLock
  import CacheFill

  type Data = CacheFill.Data

  /** How one cache command fares: without a connection it silently does nothing. */
  datatype Command = Runs | NoConnection | Fails

  /** One step of a call: where it stood, what it saw, and the cache and the locks at that moment. */
  datatype Moment = Moment(pc: CacheFill.Pc, sight: CacheFill.Sight, command: Command, entries: map<string, Data>,
                           store: Store, now: Time)

  /** What a GET sees of a cache. */
  function Seen(entries: map<string, Data>, full: string, command: Command): CacheFill.Sight {
    match command
    case Runs => if full in entries then CacheFill.Hit(entries[full]) else CacheFill.Miss
    case NoConnection => CacheFill.Miss
    case Fails => CacheFill.Broken
  }

  /** The log from `from` on is a course of the program of a call, which now stands at `pc`. */
  ghost predicate StandsAt(log: seq<Moment>, from: nat, pc: CacheFill.Pc) {
    && from <= |log|
    && (if from == |log| then pc == CacheFill.FastPath
        else log[from].pc == CacheFill.FastPath && Leads(log[|log| - 1], pc))
    && (forall i :: from < i < |log| ==> LedTo(log, i))
  }

  predicate LedTo(log: seq<Moment>, i: nat)
    requires 0 < i < |log|
  {
    Leads(log[i - 1], log[i].pc)
  }

  predicate Leads(m: Moment, pc: CacheFill.Pc) {
    CacheFill.NextPc(m.pc, m.sight) == Some(pc)
  }

  /** What a call was asked for, and how the outside answers it. */
  datatype Terms = Terms(prefix: string, key: string, ttl: Duration, maxRetries: nat, token: Value, gateBlocked: bool,
                         fallback: Result<Data, string>, command: nat -> Command)

  /** The moment tells the truth: every look is at the cache as it was, by the command of its turn. */
  predicate Truthful(t: Terms, m: Moment) {
    match m.pc
    case FastPath => m.sight == Seen(m.entries, BuildKey(t.prefix, t.key), t.command(0))
    case NullCheck => m.sight == MarkerSeen(m.entries, BuildNullKey(t.prefix, t.key), t.command(1))
    case Contend =>
      && (m.sight.Gated? <==> t.gateBlocked)
      && (m.sight.Taken? ==> HeldUntil(t, m, m.now + t.ttl))
      && (m.sight.Busy? ==>
            m.sight.polls == t.maxRetries && (t.maxRetries > 0 ==> Live(Slot(m.store, BuildLockKey(t.prefix, t.key)), m.now)))
    case DoubleCheck => m.sight == Seen(m.entries, BuildKey(t.prefix, t.key), t.command(2))
    case Poll(left) =>
      && left <= t.maxRetries
      && (left > 0 ==> m.sight == Seen(m.entries, BuildKey(t.prefix, t.key), t.command(4 + t.maxRetries - left)))
    case Compute(_) => m.sight == if t.fallback.Ok? then CacheFill.Gave(t.fallback.value) else CacheFill.Broken
    case Populate(_, _) => m.sight == if t.command(3).Runs? then CacheFill.Stored else CacheFill.Broken
    case _ => true
  }

  function MarkerSeen(entries: map<string, Data>, full: string, command: Command): CacheFill.Sight {
    match command
    case Runs => if full in entries then CacheFill.Marked else CacheFill.Unmarked
    case NoConnection => CacheFill.Unmarked
    case Fails => CacheFill.Broken
  }

  ghost predicate AllTruthful(t: Terms, log: seq<Moment>, from: nat) {
    forall i :: from <= i < |log| ==> TruthfulAt(t, log, i)
  }

  predicate TruthfulAt(t: Terms, log: seq<Moment>, i: nat)
    requires i < |log|
  {
    Truthful(t, log[i])
  }

  /** One more moment of the course. */
  lemma GoesOn(t: Terms, log: seq<Moment>, from: nat, m: Moment, pc: CacheFill.Pc)
    requires StandsAt(log, from, m.pc) && AllTruthful(t, log, from) && Leads(m, pc) && Truthful(t, m)
    ensures StandsAt(log + [m], from, pc) && AllTruthful(t, log + [m], from)
  {
    var more := log + [m];
    forall i | from <= i < |more|
      ensures TruthfulAt(t, more, i)
    {
      assert i < |log| ==> more[i] == log[i] && TruthfulAt(t, log, i);
    }
    forall i | from < i < |more|
      ensures LedTo(more, i)
    {
      assert i < |log| ==> more[i] == log[i] && more[i - 1] == log[i - 1] && LedTo(log, i);
    }
  }

  /** The fallback ran at some moment from `from` on. */
  ghost predicate ComputesSince(log: seq<Moment>, from: nat) {
    exists i :: from <= i < |log| && ComputesAt(log, i)
  }

  predicate ComputesAt(log: seq<Moment>, i: nat)
    requires i < |log|
  {
    log[i].pc.Compute?
  }

  /** At that moment the call's own value stands at the lock key, with this deadline. */
  predicate HeldUntil(t: Terms, m: Moment, deadline: Time) {
    Slot(m.store, BuildLockKey(t.prefix, t.key)) == Some(Entry(t.token, deadline))
  }

  /** A lock once taken is held at every later moment of the call that is within its time to live. */
  ghost predicate LockIsKept(t: Terms, log: seq<Moment>, from: nat) {
    forall i, j :: from <= i < j < |log| && log[i].sight.Taken? && log[j].now < log[i].now + t.ttl ==>
      HeldUntil(t, log[j], log[i].now + t.ttl)
  }

  /** Every attempt of the course takes the lock, at that time. */
  ghost predicate TakenAt(log: seq<Moment>, from: nat, now: Time) {
    forall i :: from <= i < |log| && log[i].pc == CacheFill.Contend ==> log[i].sight.Taken? && log[i].now == now
  }

  ghost predicate NeverBroken(log: seq<Moment>, from: nat) {
    forall i :: from <= i < |log| && log[i].pc == CacheFill.Contend ==> log[i].sight != CacheFill.Broken
  }

  /** The terms are those of this call. */
  predicate AskedFor(t: Terms, prefix: string, key: string, token: Value) {
    t.prefix == prefix && t.key == key && t.token == token
  }

  /** Within the deadline the lock is the call's own. */
  predicate HeldWithin(t: Terms, store: Store, now: Time, deadline: Time) {
    now < deadline ==> Slot(store, BuildLockKey(t.prefix, t.key)) == Some(Entry(t.token, deadline))
  }

  /** The lock could be taken at once. */
  predicate FreeAt(store: Store, now: Time, t: Terms) {
    t.maxRetries > 0 && t.ttl > 0 && !Live(Slot(store, BuildLockKey(t.prefix, t.key)), now)
  }

  /** One of the first n lock commands does not get through whole; no reply is ever lost. */
  ghost predicate DownBy(net: nat -> Net, n: nat) {
    exists a: nat :: a < n && !net(a).Up?
  }

  ghost predicate RepliesArrive(net: nat -> Net) {
    forall a: nat :: !net(a).ReplyLost?
  }

  /** No lock has this value; none but at this key; none that is live. */
  ghost predicate NoneOf(store: Store, token: Value) {
    forall k :: k in store ==> store[k].value != token
  }

  ghost predicate OnlyAt(store: Store, key: Key, token: Value) {
    forall k :: k in store && store[k].value == token ==> k == key
  }

  ghost predicate NoneLive(store: Store, now: Time, token: Value) {
    forall k :: Live(Slot(store, k), now) ==> store[k].value != token
  }

  lemma OthersAddNone(store: Store, now: Time, store': Store, now': Time, token: Value)
    requires OnlyOthers(store, now, store', now', token) && NoneOf(store, token)
    ensures NoneLive(store', now', token)
  {
  }

  /** Only others acted on the locks: they neither make nor remove a live lock of this value. */
  ghost predicate OnlyOthers(store: Store, now: Time, store': Store, now': Time, token: Value) {
    && now <= now'
    && (forall k :: k in store' && store'[k].value == token ==> k in store && store'[k] == store[k])
    && (forall k :: k in store && store[k].value == token && now' < store[k].expiry ==> k in store' && store'[k] == store[k])
  }

  lemma OthersKeepLock(t: Terms, store: Store, now: Time, store': Store, now': Time, deadline: Time)
    requires OnlyOthers(store, now, store', now', t.token) && HeldWithin(t, store, now, deadline)
    ensures HeldWithin(t, store', now', deadline)
  {
  }

  /** The log went on past the attempt to take the lock, which was held at each new moment within its deadline. */
  ghost predicate Longer(t: Terms, log: seq<Moment>, log': seq<Moment>, deadline: Time) {
    && |log| <= |log'| && log'[..|log|] == log
    && (forall i :: |log| <= i < |log'| ==> LaterAt(t, log', i, deadline))
  }

  predicate LaterAt(t: Terms, log: seq<Moment>, i: nat, deadline: Time)
    requires i < |log|
  {
    Later(t, log[i], deadline)
  }

  predicate Later(t: Terms, m: Moment, deadline: Time) {
    !m.sight.Taken? && m.pc != CacheFill.Contend && HeldWithin(t, m.store, m.now, deadline)
  }

  lemma LongerByOne(t: Terms, start: seq<Moment>, log: seq<Moment>, m: Moment, deadline: Time)
    requires Longer(t, start, log, deadline) && Later(t, m, deadline)
    ensures Longer(t, start, log + [m], deadline)
    ensures ComputesSince(log + [m], |start|) <==> ComputesSince(log, |start|) || m.pc.Compute?
  {
    var more := log + [m];
    assert more[..|start|] == more[..|log|][..|start|];
    forall i | |start| <= i < |more|
      ensures LaterAt(t, more, i, deadline)
    {
      assert i < |log| ==> more[i] == log[i] && LaterAt(t, log, i, deadline);
    }
    StillComputes(log, more, |start|);
    assert ComputesAt(more, |log|) <==> m.pc.Compute?;
  }

  /** What a longer log shows of the earlier moments. */
  lemma StillComputes(log: seq<Moment>, log': seq<Moment>, from: nat)
    requires from <= |log| <= |log'| && log'[..|log|] == log
    ensures ComputesSince(log', from) <==> ComputesSince(log, from) || ComputesSince(log', |log|)
  {
    forall i | from <= i < |log|
      ensures ComputesAt(log', i) <==> ComputesAt(log, i)
    {
      assert log'[i] == log'[..|log|][i];
    }
  }

  /** The log went on with the attempt to take the lock, and what it took it kept. */
  ghost predicate Attempted(t: Terms, log: seq<Moment>, log': seq<Moment>) {
    && |log| < |log'| && log'[..|log|] == log && log'[|log|].pc == CacheFill.Contend
    && (var deadline := Deadline(t, log'[|log|]); forall i :: |log| < i < |log'| ==> LaterAt(t, log', i, deadline))
  }

  /** Until when an attempt holds the lock. */
  function Deadline(t: Terms, attempt: Moment): Time {
    if attempt.sight.Taken? then attempt.now + t.ttl else 0
  }

  lemma FromAttempt(t: Terms, log: seq<Moment>, attempted: seq<Moment>, log': seq<Moment>, deadline: Time)
    requires |attempted| == |log| + 1 && attempted[..|log|] == log && attempted[|log|].pc == CacheFill.Contend
    requires Longer(t, attempted, log', deadline)
    requires deadline == Deadline(t, attempted[|log|])
    ensures Attempted(t, log, log') && log'[|log|] == attempted[|log|]
    ensures ComputesSince(log', |log|) <==> ComputesSince(log', |attempted|)
  {
    assert log'[..|log|] == log'[..|attempted|][..|log|];
    assert log'[|log|] == log'[..|attempted|][|log|];
    assert !ComputesAt(log', |log|);
    assert ComputesSince(log', |log|) ==> exists i :: |attempted| <= i < |log'| && ComputesAt(log', i);
  }

  /** Before the attempt to take the lock: neither that, nor a computation. */
  ghost predicate OnlyFast(log: seq<Moment>, from: nat) {
    && from <= |log| && !ComputesSince(log, from)
    && forall i :: from <= i < |log| ==> FastAt(log, i)
  }

  predicate FastAt(log: seq<Moment>, i: nat)
    requires i < |log|
  {
    !log[i].sight.Taken? && log[i].pc != CacheFill.Contend
  }

  lemma NothingTaken(t: Terms, log: seq<Moment>, from: nat)
    requires OnlyFast(log, from)
    ensures LockIsKept(t, log, from) && NeverBroken(log, from) && forall now: Time :: TakenAt(log, from, now)
  {
    assert forall i :: from <= i < |log| && (log[i].pc == CacheFill.Contend || log[i].sight.Taken?) ==> !FastAt(log, i);
  }

  /** The one attempt of a course, and the lock kept since. */
  lemma KeptFromAttempt(t: Terms, log: seq<Moment>, log': seq<Moment>, from: nat)
    requires OnlyFast(log, from) && Attempted(t, log, log')
    ensures LockIsKept(t, log', from) && log'[..from] == log[..from]
    ensures log'[|log|].sight.Taken? ==> TakenAt(log', from, log'[|log|].now)
    ensures log'[|log|].sight != CacheFill.Broken ==> NeverBroken(log', from)
    ensures ComputesSince(log', from) <==> ComputesSince(log', |log|)
  {
    assert log'[..from] == log'[..|log|][..from];
    StillComputes(log, log', from);
    forall i | from <= i < |log'| && i != |log|
      ensures FastAt(log', i)
    {
      if i < |log| {
        assert log'[i] == log'[..|log|][i] && FastAt(log, i);
      } else {
        assert LaterAt(t, log', i, Deadline(t, log'[|log|]));
      }
    }
    forall i, j | from <= i < j < |log'| && log'[i].sight.Taken? && log'[j].now < log'[i].now + t.ttl
      ensures HeldUntil(t, log'[j], log'[i].now + t.ttl)
    {
      assert !FastAt(log', i);
      assert LaterAt(t, log', j, Deadline(t, log'[|log|]));
    }
    assert forall i :: from <= i < |log'| && log'[i].pc == CacheFill.Contend ==> !FastAt(log', i);
  }

  lemma LongerTwice(t: Terms, a: seq<Moment>, b: seq<Moment>, c: seq<Moment>, deadline: Time)
    requires Longer(t, a, b, deadline) && Longer(t, b, c, deadline)
    ensures Longer(t, a, c, deadline)
    ensures ComputesSince(c, |a|) <==> ComputesSince(b, |a|) || ComputesSince(c, |b|)
  {
    assert c[..|a|] == c[..|b|][..|a|];
    StillComputes(b, c, |a|);
    forall i | |a| <= i < |c|
      ensures LaterAt(t, c, i, deadline)
    {
      assert i < |b| ==> c[i] == c[..|b|][i] && LaterAt(t, b, i, deadline);
      assert i >= |b| ==> LaterAt(t, c, i, deadline);
    }
  }

  lemma LongerSelf(t: Terms, log: seq<Moment>, deadline: Time)
    ensures Longer(t, log, log, deadline) && !ComputesSince(log, |log|)
  {
  }

  lemma LockKeyIsNamed(prefix: string, key: string)
    ensures BuildLockKey(prefix, key) != ""
  {
    assert |BuildLockKey(prefix, key)| >= 5;
  }

  function ContendSight(r: Result<LockGuard?, LockError>, maxRetries: nat): CacheFill.Sight {
    if r.Err? then CacheFill.Broken else if r.value == null then CacheFill.Busy(maxRetries) else CacheFill.Taken
  }

  /** Where a call goes on after its attempt to take the lock. */
  function AfterAttempt(sight: CacheFill.Sight): CacheFill.Pc {
    match sight
    case Taken => CacheFill.DoubleCheck
    case Busy(polls) => CacheFill.Poll(polls)
    case _ => CacheFill.Compute(CacheFill.Unlocked)
  }

  function FallbackSight(fallback: Result<Data, string>): CacheFill.Sight {
    if fallback.Ok? then CacheFill.Gave(fallback.value) else CacheFill.Broken
  }

  // ---- What a course means ---------------------------------------------------------------

  /** Moment i leads to the next, or to the end of the course. */
  lemma Follows(log: seq<Moment>, from: nat, o: CacheFill.Outcome, i: nat)
    requires StandsAt(log, from, CacheFill.Done(o)) && from <= i < |log|
    ensures Leads(log[i], if i + 1 < |log| then log[i + 1].pc else CacheFill.Done(o)) && !log[i].pc.Done?
  {
    if i + 1 < |log| {
      assert LedTo(log, i + 1);
    }
  }

  /** Moment i, but the first, comes of the one before, and only the first is on the fast path. */
  lemma ComesOf(log: seq<Moment>, from: nat, o: CacheFill.Outcome, i: nat)
    requires StandsAt(log, from, CacheFill.Done(o)) && from < i < |log|
    ensures Leads(log[i - 1], log[i].pc) && !log[i].pc.FastPath?
  {
    assert LedTo(log, i);
  }

  /** The attempt to take the lock is the third moment, if the call gets that far. */
  lemma AttemptIsThird(log: seq<Moment>, from: nat, o: CacheFill.Outcome, i: nat)
    requires StandsAt(log, from, CacheFill.Done(o)) && from <= i < |log| && log[i].pc == CacheFill.Contend
    ensures i == from + 2
  {
    ComesOf(log, from, o, i);
    ComesOf(log, from, o, i - 1);
    if i - 2 > from {
      ComesOf(log, from, o, i - 2);
    }
  }

  /** What a GET by the command of its turn finds in a moment. */
  function Found(t: Terms, m: Moment, turn: nat): Option<Data> {
    var full := BuildKey(t.prefix, t.key);
    if t.command(turn).Runs? && full in m.entries then Some(m.entries[full]) else None
  }

  /**
    A call that takes the lock looks again: what it finds then it returns without
    computing, and it computes, under the lock, only if it finds nothing.
   */
  lemma HolderComputesOnlyAfterMiss(t: Terms, log: seq<Moment>, from: nat, o: CacheFill.Outcome)
    requires StandsAt(log, from, CacheFill.Done(o)) && AllTruthful(t, log, from)
    requires from + 2 < |log| && log[from + 2].sight.Taken?
    ensures from + 4 < |log| && log[from + 3].pc == CacheFill.DoubleCheck
    ensures var found := Found(t, log[from + 3], 2);
            if found.Some? then o == CacheFill.Returned(found.value) && !ComputesSince(log, from)
            else log[from + 4].pc == CacheFill.Compute(CacheFill.Locked)
  {
    ComesOf(log, from, o, from + 1);
    ComesOf(log, from, o, from + 2);
    Follows(log, from, o, from + 2);
    Follows(log, from, o, from + 3);
    assert TruthfulAt(t, log, from + 3);
    if Found(t, log[from + 3], 2).Some? {
      Follows(log, from, o, from + 4);
      if from + 5 < |log| {
        Follows(log, from, o, from + 5);
      }
      forall i | from <= i < |log|
        ensures !ComputesAt(log, i)
      {
        assert i in {from, from + 1, from + 2, from + 3, from + 4};
      }
    }
  }

  /** What poll k of a call finds, if the call gets that far. */
  function Polled(t: Terms, log: seq<Moment>, from: nat, k: nat): Option<Data> {
    if from + 3 + k < |log| then Found(t, log[from + 3 + k], 4 + k) else None
  }

  /** None of the first n polls finds the entry. */
  ghost predicate NonePolled(t: Terms, log: seq<Moment>, from: nat, n: nat) {
    forall j :: 0 <= j < n ==> Polled(t, log, from, j).None?
  }

  /** The k-th poll of a call that found the lock busy, while no earlier one found the entry. */
  lemma {:induction false} PollsInTurn(t: Terms, log: seq<Moment>, from: nat, o: CacheFill.Outcome, k: nat)
    requires StandsAt(log, from, CacheFill.Done(o)) && AllTruthful(t, log, from)
    requires from + 2 < |log| && log[from + 2].sight.Busy? && log[from + 2].pc == CacheFill.Contend && k <= t.maxRetries
    requires NonePolled(t, log, from, k)
    ensures from + 3 + k < |log| && log[from + 3 + k].pc == CacheFill.Poll(t.maxRetries - k)
  {
    if k == 0 {
      assert TruthfulAt(t, log, from + 2);
      Follows(log, from, o, from + 2);
    } else {
      PollsInTurn(t, log, from, o, k - 1);
      assert Polled(t, log, from, k - 1).None?;
      assert TruthfulAt(t, log, from + 2 + k);
      Follows(log, from, o, from + 2 + k);
    }
  }

  /**
    A call that finds the lock busy returns the entry at the first poll that finds one.
    It computes, without the lock, exactly if none of all its polls does.
   */
  lemma WaiterComputesOnlyAfterAllPolls(t: Terms, log: seq<Moment>, from: nat, o: CacheFill.Outcome)
    requires StandsAt(log, from, CacheFill.Done(o)) && AllTruthful(t, log, from)
    requires from + 2 < |log| && log[from + 2].sight.Busy? && log[from + 2].pc == CacheFill.Contend
    ensures NonePolled(t, log, from, t.maxRetries) ==>
              from + 4 + t.maxRetries < |log| && log[from + 4 + t.maxRetries].pc == CacheFill.Compute(CacheFill.Unlocked)
    ensures forall k :: 0 <= k < t.maxRetries && NonePolled(t, log, from, k) && Polled(t, log, from, k).Some? ==>
              !ComputesSince(log, from) && o == CacheFill.Returned(Polled(t, log, from, k).value)
  {
    if NonePolled(t, log, from, t.maxRetries) {
      PollsInTurn(t, log, from, o, t.maxRetries);
      Follows(log, from, o, from + 3 + t.maxRetries);
    }
    forall k | 0 <= k < t.maxRetries && NonePolled(t, log, from, k) && Polled(t, log, from, k).Some?
      ensures !ComputesSince(log, from) && o == CacheFill.Returned(Polled(t, log, from, k).value)
    {
      PollFinds(t, log, from, o, k);
    }
  }

  lemma PollFinds(t: Terms, log: seq<Moment>, from: nat, o: CacheFill.Outcome, k: nat)
    requires StandsAt(log, from, CacheFill.Done(o)) && AllTruthful(t, log, from)
    requires from + 2 < |log| && log[from + 2].sight.Busy? && log[from + 2].pc == CacheFill.Contend
    requires k < t.maxRetries && NonePolled(t, log, from, k) && Polled(t, log, from, k).Some?
    ensures !ComputesSince(log, from) && o == CacheFill.Returned(Polled(t, log, from, k).value)
  {
    PollsInTurn(t, log, from, o, k);
    assert TruthfulAt(t, log, from + 3 + k);
    Follows(log, from, o, from + 3 + k);
    if from + 4 + k < |log| {
      Follows(log, from, o, from + 4 + k);
    }
    ComesOf(log, from, o, from + 1);
    ComesOf(log, from, o, from + 2);
    forall i | from <= i < |log|
      ensures !ComputesAt(log, i)
    {
      if i >= from + 3 {
        PollsInTurn(t, log, from, o, i - from - 3);
      } else {
        assert i in {from, from + 1, from + 2};
      }
    }
  }

  /**
    Where the lock is free when a call attempts it, the call computes and fills the cache
    under the lock, which it still holds then if its time to live has not run out.
   */
  lemma FreeLockCoversComputation(t: Terms, log: seq<Moment>, from: nat, o: CacheFill.Outcome, now: Time, i: nat)
    requires StandsAt(log, from, CacheFill.Done(o)) && TakenAt(log, from, now) && LockIsKept(t, log, from)
    requires from <= i < |log| && (log[i].pc.Compute? || log[i].pc.Populate?)
    ensures CacheFill.UnderLock(log[i].pc)
    ensures log[i].now < now + t.ttl ==> HeldUntil(t, log[i], now + t.ttl)
  {
    var c := UnderLockSince(log, from, o, now, i);
  }

  lemma UnderLockSince(log: seq<Moment>, from: nat, o: CacheFill.Outcome, now: Time, i: nat) returns (c: nat)
    requires StandsAt(log, from, CacheFill.Done(o)) && TakenAt(log, from, now)
    requires from <= i < |log| && (log[i].pc.Compute? || log[i].pc.Populate?)
    ensures CacheFill.UnderLock(log[i].pc) && from <= c < i && log[c].sight.Taken? && log[c].now == now
  {
    ComesOf(log, from, o, i);
    if log[i].pc.Populate? {
      c := UnderLockSince(log, from, o, now, i - 1);
    } else {
      c := ComputesAfterLook(log, from, o, now, i);
    }
  }

  /** A computation comes of a second look; any other way to it starts with an attempt that took nothing. */
  lemma ComputesAfterLook(log: seq<Moment>, from: nat, o: CacheFill.Outcome, now: Time, i: nat) returns (c: nat)
    requires StandsAt(log, from, CacheFill.Done(o)) && TakenAt(log, from, now)
    requires from <= i < |log| && log[i].pc.Compute?
    ensures log[i].pc == CacheFill.Compute(CacheFill.Locked) && from <= c < i && log[c].sight.Taken? && log[c].now == now
  {
    ComesOf(log, from, o, i);
    if log[i - 1].pc.Poll? {
      NoPoll(log, from, o, now, i - 1);
      c := from;
    } else {
      ComesOf(log, from, o, i - 1);
      c := i - 2;
    }
  }

  lemma {:induction false} NoPoll(log: seq<Moment>, from: nat, o: CacheFill.Outcome, now: Time, i: nat)
    requires StandsAt(log, from, CacheFill.Done(o)) && TakenAt(log, from, now) && from <= i < |log|
    ensures !log[i].pc.Poll?
    decreases i
  {
    if i > from {
      ComesOf(log, from, o, i);
      NoPoll(log, from, o, now, i - 1);
    }
  }
}
