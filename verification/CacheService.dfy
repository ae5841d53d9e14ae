/**
  The cache operations in their own imperative form
  (crates/keycompute-cache/src/lib.rs, lines 490-625 and 650-672).
 */
module CacheServices {
  import opened Common
  import opened CacheKeys
  import opened DistributedLock
  import opened CacheCourses
  import CacheFill

  /** What a negative-cache marker holds; only its presence is ever asked for. */
  const MARKER: Data := 1

  datatype CacheError = Redis | NegativeCache | FallbackFailed

  class CacheService {
    const pool: Server?
    const prefix: string
    /** One key space for entries and negative-cache markers, as in Redis. */
    var entries: map<string, Data>

    /** Every value that was in the cache at some time. */
    ghost var cached: set<Data>

    /** The steps of the calls of this replica. */
    ghost var log: seq<Moment>

    ghost predicate Valid()
      reads this
    {
      forall k :: k in entries ==> entries[k] in cached
    }

    constructor (pool: Server?, prefix: string)
      ensures Valid() && this.pool == pool && this.prefix == prefix && entries == map[]
    {
      this.pool, this.prefix := pool, prefix;
      entries, cached, log := map[], {}, [];
    }

    /** Other replicas fill, drop and expire entries. */
    method OthersRun()
      requires Valid()
      modifies this`entries, this`cached
      ensures Valid() && old(cached) <= cached
    {
      var steps: nat :| 0 <= steps;
      while steps > 0
        invariant Valid() && old(cached) <= cached
      {
        var key: string :| 0 <= |key|;
        if * {
          var data: Data :| data == data;
          entries := entries[key := data];
          cached := cached + {data};
        } else {
          entries := entries - {key};
        }
        steps := steps - 1;
      }
    }

    method Get(key: string, command: Command) returns (r: Result<Option<Data>, CacheError>)
      requires Valid()
      ensures if command.Fails? then r == Err(Redis) else r.Ok?
      ensures command.NoConnection? ==> r == Ok(None)
      ensures r.Ok? && r.value.Some? ==> r.value.value in cached
      ensures command.Runs? ==> r == Ok(if BuildKey(prefix, key) in entries then Some(entries[BuildKey(prefix, key)]) else None)
    {
      if command.Fails? {
        return Err(Redis);
      }
      var full := BuildKey(prefix, key);
      return Ok(if command.Runs? && full in entries then Some(entries[full]) else None);
    }

    method Set(key: string, data: Data, command: Command)
      requires Valid()
      modifies this`entries, this`cached
      ensures Valid() && old(cached) <= cached
      ensures entries == if command.Runs? then old(entries)[BuildKey(prefix, key) := data] else old(entries)
    {
      if command.Runs? {
        entries := entries[BuildKey(prefix, key) := data];
        cached := cached + {data};
      }
    }

    /** Mark a key as known to be missing; no other key becomes marked. */
    method SetNull(key: string, command: Command) returns (r: Result<(), CacheError>)
      requires Valid()
      modifies this
      ensures Valid() && old(cached) <= cached && (r.Ok? <==> !command.Fails?)
      ensures command.Runs? ==> Marked(key)
      ensures forall k: string :: k != BuildNullKey(prefix, key) ==> (k in entries <==> k in old(entries))
      ensures forall other: string :: other != key && Marked(other) ==> old(Marked(other))
    {
      BuildersKeepMarkersApart(prefix, key);
      if command.Fails? {
        return Err(Redis);
      }
      if command.Runs? {
        entries := entries[BuildNullKey(prefix, key) := MARKER];
        cached := cached + {MARKER};
      }
      return Ok(());
    }

    /** has_null_marker: whether anything stands under the marker's name. */
    predicate Marked(key: string)
      reads this
    {
      BuildNullKey(prefix, key) in entries
    }

    /** Delete an entry and its negative marker together. */
    method Invalidate(key: string, command: Command) returns (r: Result<(), CacheError>)
      requires Valid()
      modifies this
      ensures Valid() && (r.Ok? <==> !command.Fails?)
      ensures command.Runs? ==> BuildKey(prefix, key) !in entries && !Marked(key)
      ensures forall k :: k in entries ==> k in old(entries) && entries[k] == old(entries)[k]
      ensures forall k :: k in old(entries) && k !in {BuildKey(prefix, key), BuildNullKey(prefix, key)} ==> k in entries
      ensures !command.Runs? ==> entries == old(entries)
    {
      if command.Fails? {
        return Err(Redis);
      }
      if command.Runs? {
        var doomed := {BuildKey(prefix, key), BuildNullKey(prefix, key)};
        entries := entries - doomed;
      }
      return Ok(());
    }

    // ---- The steps of a call, each leaving its moment -----------------------------------

    /** One GET of the call. */
    method Look(key: string, command: Command, ghost pc: CacheFill.Pc) returns (r: Result<Option<Data>, CacheError>)
      requires Valid() && pool != null
      modifies this`log
      ensures log == old(log) + [Moment(pc, Seen(entries, BuildKey(prefix, key), command), command, entries, pool.store, pool.now)]
      ensures match Seen(entries, BuildKey(prefix, key), command)
              case Hit(data) => r == Ok(Some(data)) && data in cached
              case Miss => r == Ok(None)
              case _ => r == Err(Redis)
    {
      r := Get(key, command);
      log := log + [Moment(pc, Seen(entries, BuildKey(prefix, key), command), command, entries, pool.store, pool.now)];
    }

    /** The check for a negative-cache marker. */
    method CheckMarker(key: string, command: Command) returns (r: Result<bool, CacheError>)
      requires Valid() && pool != null
      modifies this`log
      ensures log == old(log) + [Moment(CacheFill.NullCheck, MarkerSeen(entries, BuildNullKey(prefix, key), command), command,
                                        entries, pool.store, pool.now)]
      ensures r == if command.Fails? then Err(Redis) else Ok(command.Runs? && Marked(key))
    {
      log := log + [Moment(CacheFill.NullCheck, MarkerSeen(entries, BuildNullKey(prefix, key), command), command,
                           entries, pool.store, pool.now)];
      return if command.Fails? then Err(Redis) else Ok(command.Runs? && Marked(key));
    }

    /** The fast path: a cached value, a refused key or a failed command ends the call here. */
    method FastAnswer(key: string, command: nat -> Command, ghost t: Terms) returns (early: Option<Result<Data, CacheError>>)
      requires Valid() && pool != null && t.prefix == prefix && t.key == key && t.command == command
      modifies this`log
      ensures |log| > |old(log)| && log[..|old(log)|] == old(log)
      ensures AllTruthful(t, log, |old(log)|) && OnlyFast(log, |old(log)|)
      ensures StandsAt(log, |old(log)|, if early.None? then CacheFill.Contend else CacheFill.Done(OutcomeOf(early.value)))
      ensures early.Some? && early.value.Ok? ==> early.value.value in cached
      ensures early.Some? && early.value.Err? ==> early.value.error in {Redis, NegativeCache}
      ensures command(0).Runs? && BuildKey(prefix, key) in entries ==> early == Some(Ok(entries[BuildKey(prefix, key)]))
      ensures command(0).Fails? ==> early == Some(Err(Redis))
      ensures command(0).Runs? && BuildKey(prefix, key) !in entries && command(1).Runs? && Marked(key) ==>
                early == Some(Err(NegativeCache))
    {
      ghost var from := |log|;
      var hit := Look(key, command(0), CacheFill.FastPath);
      if hit.Err? {
        return Some(Err(hit.error));
      }
      if hit.value.Some? {
        return Some(Ok(hit.value.value));
      }
      var marked := CheckMarker(key, command(1));
      if marked.Err? {
        return Some(Err(marked.error));
      }
      return if marked.value then Some(Err(NegativeCache)) else None;
    }

    /** The attempt to take the lock, or the gate's refusal. */
    method Contend(key: string, ttl: Duration, maxRetries: nat, token: Value, net: nat -> Net) returns (r: Result<LockGuard?, LockError>)
      requires Valid() && pool != null
      requires NoneOf(pool.store, token)
      modifies this`log, pool
      ensures log == old(log) + [Moment(CacheFill.Contend, ContendSight(r, maxRetries), Runs, entries, pool.store, pool.now)]
      ensures r.Ok? && r.value != null ==>
                && fresh(r.value) && r.value.pool == pool && r.value.key == BuildLockKey(prefix, key) && r.value.value == token
                && Slot(pool.store, BuildLockKey(prefix, key)) == Some(Entry(token, pool.now + ttl))
      ensures r == Ok(null) ==> NoneOf(pool.store, token)
      ensures r == Ok(null) && maxRetries > 0 ==> Live(Slot(pool.store, BuildLockKey(prefix, key)), pool.now)
      ensures r.Err? ==> ttl == 0 || DownBy(net, maxRetries)
      ensures OnlyAt(pool.store, BuildLockKey(prefix, key), token)
      ensures RepliesArrive(net) && r.Err? ==> NoneOf(pool.store, token)
      ensures maxRetries > 0 && ttl > 0 && net(0).Up? && !Live(Slot(old(pool.store), BuildLockKey(prefix, key)), old(pool.now)) ==>
                r.Ok? && r.value != null && pool.now == old(pool.now)
    {
      var acquired := LockGuard.Acquire(pool, BuildLockKey(prefix, key), token, ttl, maxRetries, net);
      r := if acquired.Err? then Err(acquired.error) else Ok(acquired.value.value);
      log := log + [Moment(CacheFill.Contend, ContendSight(r, maxRetries), Runs, entries, pool.store, pool.now)];
    }

    /** The caller's computation, from its start on; the others run meanwhile. */
    method RunFallback(fallback: Result<Data, string>, token: Value, ghost mode: CacheFill.Mode) returns (r: Result<Data, CacheError>)
      requires Valid() && pool != null
      modifies this, pool
      ensures Valid() && old(cached) <= cached && r == Computed(fallback)
      ensures log == old(log) + [Moment(CacheFill.Compute(mode), FallbackSight(fallback), Runs, old(entries), old(pool.store), old(pool.now))]
      ensures OnlyOthers(old(pool.store), old(pool.now), pool.store, pool.now, token)
    {
      log := log + [Moment(CacheFill.Compute(mode), FallbackSight(fallback), Runs, entries, pool.store, pool.now)];
      OthersRun();
      pool.OthersRun(token);
      return Computed(fallback);
    }

    method Fill(key: string, data: Data, command: Command, ghost mode: CacheFill.Mode)
      requires Valid() && pool != null
      modifies this
      ensures Valid() && old(cached) <= cached
      ensures entries == if command.Runs? then old(entries)[BuildKey(prefix, key) := data] else old(entries)
      ensures log == old(log) + [Moment(CacheFill.Populate(mode, data), if command.Runs? then CacheFill.Stored else CacheFill.Broken,
                                        command, old(entries), pool.store, pool.now)]
    {
      log := log + [Moment(CacheFill.Populate(mode, data), if command.Runs? then CacheFill.Stored else CacheFill.Broken,
                           command, entries, pool.store, pool.now)];
      Set(key, data, command);
    }

    /** The end of the guard's scope. */
    method Unlock(guard: LockGuard, net: Net, ghost outcome: CacheFill.Outcome)
      requires Valid() && pool != null && guard.pool == pool && guard.key != ""
      modifies this`log, guard, pool
      ensures log == old(log) + [Moment(CacheFill.Unlock(outcome), CacheFill.Released, Runs, entries, old(pool.store), old(pool.now))]
      ensures pool.now == old(pool.now)
      ensures forall k :: k in pool.store ==> k in old(pool.store) && pool.store[k] == old(pool.store)[k]
      ensures net.Up? ==> !(Live(Slot(pool.store, old(guard.key)), pool.now)
                            && Slot(pool.store, old(guard.key)).value.value == old(guard.value))
    {
      log := log + [Moment(CacheFill.Unlock(outcome), CacheFill.Released, Runs, entries, pool.store, pool.now)];
      guard.Drop(net, true);
    }

    /** The computation and the filling of the cache; `deadline` is that of the call's lock, if it has one. */
    method ComputeAndFill(key: string, token: Value, fallback: Result<Data, string>, command: Command, ghost mode: CacheFill.Mode,
                          ghost t: Terms, ghost from: nat, ghost deadline: Time)
      returns (r: Result<Data, CacheError>)
      requires Valid() && pool != null && mode != CacheFill.Bypass && StandsAt(log, from, CacheFill.Compute(mode))
      requires AskedFor(t, prefix, key, token) && t.fallback == fallback && t.command(3) == command
      requires HeldWithin(t, pool.store, pool.now, deadline) && AllTruthful(t, log, from)
      modifies this, pool
      ensures Valid() && old(cached) <= cached && r == Computed(fallback)
      ensures Longer(t, old(log), log, deadline) && AllTruthful(t, log, from)
      ensures StandsAt(log, from, AfterCompute(mode, r)) && ComputesSince(log, |old(log)|)
      ensures OnlyOthers(old(pool.store), old(pool.now), pool.store, pool.now, token)
      ensures HeldWithin(t, pool.store, pool.now, deadline)
      ensures fallback.Ok? && command.Runs? ==> BuildKey(prefix, key) in entries && entries[BuildKey(prefix, key)] == fallback.value
    {
      ghost var before := log;
      r := RunFallback(fallback, token, mode);
      OthersKeepLock(t, old(pool.store), old(pool.now), pool.store, pool.now, deadline);
      ghost var computed := log[|before|];
      LongerByOne(t, before, before, computed, deadline);
      GoesOn(t, before, from, computed, AfterFallback(mode, fallback));
      ghost var started := log;
      if fallback.Ok? {
        Fill(key, fallback.value, command, mode);
        ghost var filled := log[|started|];
        LongerByOne(t, before, started, filled, deadline);
        GoesOn(t, started, from, filled, AfterCompute(mode, r));
      }
    }

    /** The second look, with the lock in hand. */
    method LookAgain(key: string, token: Value, command: Command, ghost t: Terms, ghost from: nat, ghost deadline: Time)
      returns (found: Option<Data>)
      requires Valid() && pool != null && StandsAt(log, from, CacheFill.DoubleCheck) && AllTruthful(t, log, from)
      requires AskedFor(t, prefix, key, token) && t.command(2) == command && HeldWithin(t, pool.store, pool.now, deadline)
      modifies this, pool
      ensures Valid() && old(cached) <= cached && (found.Some? ==> found.value in cached)
      ensures Longer(t, old(log), log, deadline) && AllTruthful(t, log, from) && !ComputesSince(log, |old(log)|)
      ensures StandsAt(log, from, if found.Some? then CacheFill.Unlock(CacheFill.Returned(found.value)) else CacheFill.Compute(CacheFill.Locked))
      ensures OnlyOthers(old(pool.store), old(pool.now), pool.store, pool.now, token)
      ensures HeldWithin(t, pool.store, pool.now, deadline)
    {
      OthersRun();
      pool.OthersRun(token);
      OthersKeepLock(t, old(pool.store), old(pool.now), pool.store, pool.now, deadline);
      ghost var before := log;
      var second := Look(key, command, CacheFill.DoubleCheck);
      ghost var look := log[|before|];
      LongerByOne(t, before, before, look, deadline);
      found := if second.Ok? then second.value else None;
      GoesOn(t, before, from, look,
             if found.Some? then CacheFill.Unlock(CacheFill.Returned(found.value)) else CacheFill.Compute(CacheFill.Locked));
    }

    /** The way out of a call with the lock in hand. */
    method LetGo(guard: LockGuard, token: Value, net: Net, ghost outcome: CacheFill.Outcome, ghost t: Terms, ghost from: nat, ghost deadline: Time)
      requires Valid() && pool != null && StandsAt(log, from, CacheFill.Unlock(outcome)) && AllTruthful(t, log, from)
      requires guard.pool == pool && guard.key == BuildLockKey(t.prefix, t.key) && guard.value == token == t.token
      requires HeldWithin(t, pool.store, pool.now, deadline)
      requires OnlyAt(pool.store, BuildLockKey(t.prefix, t.key), token)
      modifies this`log, guard, pool
      ensures Longer(t, old(log), log, deadline) && AllTruthful(t, log, from) && !ComputesSince(log, |old(log)|)
      ensures StandsAt(log, from, CacheFill.Done(outcome))
      ensures net.Up? ==> NoneLive(pool.store, pool.now, token)
    {
      LockKeyIsNamed(t.prefix, t.key);
      ghost var before := log;
      Unlock(guard, net, outcome);
      ghost var unlocked := log[|before|];
      LongerByOne(t, before, before, unlocked, deadline);
      GoesOn(t, before, from, unlocked, CacheFill.Done(outcome));
    }

    /** The call with the lock in hand: look again, and compute under the lock only after a miss. */
    method Holding(key: string, guard: LockGuard, token: Value, fallback: Result<Data, string>,
                   command: nat -> Command, net: Net, ghost t: Terms, ghost from: nat, ghost deadline: Time)
      returns (r: Result<Data, CacheError>, ran: bool)
      requires Valid() && pool != null && StandsAt(log, from, CacheFill.DoubleCheck) && AllTruthful(t, log, from)
      requires AskedFor(t, prefix, key, token) && t.fallback == fallback && t.command == command
      requires guard.pool == pool && guard.key == BuildLockKey(prefix, key) && guard.value == token
      requires HeldWithin(t, pool.store, pool.now, deadline)
      requires OnlyAt(pool.store, BuildLockKey(prefix, key), token)
      modifies this, pool, guard
      ensures Valid() && old(cached) <= cached
      ensures ran ==> r == Computed(fallback)
      ensures !ran ==> r.Ok? && r.value in cached
      ensures Longer(t, old(log), log, deadline) && AllTruthful(t, log, from)
      ensures StandsAt(log, from, CacheFill.Done(OutcomeOf(r)))
      ensures ran <==> ComputesSince(log, |old(log)|)
      ensures ran && fallback.Ok? && command(3).Runs? ==>
                BuildKey(prefix, key) in entries && entries[BuildKey(prefix, key)] == fallback.value
      ensures net.Up? ==> NoneLive(pool.store, pool.now, token)
    {
      var found := LookAgain(key, token, command(2), t, from, deadline);
      ghost var looked := log;
      if found.Some? {
        r, ran := Ok(found.value), false;
      } else {
        r := ComputeAndFill(key, token, fallback, command(3), CacheFill.Locked, t, from, deadline);
        ran := true;
        LongerTwice(t, old(log), looked, log, deadline);
      }
      ghost var ending := log;
      LetGo(guard, token, net, OutcomeOf(r), t, from, deadline);
      LongerTwice(t, old(log), ending, log, deadline);
    }

    /** One round of the wait. */
    method PollOnce(key: string, command: Command, ghost t: Terms, ghost from: nat, ghost left: nat) returns (found: Option<Data>)
      requires Valid() && pool != null && 0 < left <= t.maxRetries && StandsAt(log, from, CacheFill.Poll(left)) && AllTruthful(t, log, from)
      requires t.prefix == prefix && t.key == key && t.command(4 + t.maxRetries - left) == command
      modifies this
      ensures Valid() && old(cached) <= cached && (found.Some? ==> found.value in cached)
      ensures Longer(t, old(log), log, 0) && AllTruthful(t, log, from) && !ComputesSince(log, |old(log)|)
      ensures StandsAt(log, from, if found.Some? then CacheFill.Done(CacheFill.Returned(found.value)) else CacheFill.Poll(left - 1))
    {
      OthersRun();
      ghost var before := log;
      var hit := Look(key, command, CacheFill.Poll(left));
      ghost var look := log[|before|];
      LongerByOne(t, before, before, look, 0);
      found := if hit.Ok? then hit.value else None;
      GoesOn(t, before, from, look, if found.Some? then CacheFill.Done(CacheFill.Returned(found.value)) else CacheFill.Poll(left - 1));
    }

    /** The bounded wait for the lock holder to fill the cache; errors read as misses. */
    method PollEntry(key: string, maxRetries: nat, command: nat -> Command, ghost t: Terms, ghost from: nat) returns (found: Option<Data>)
      requires Valid() && pool != null && StandsAt(log, from, CacheFill.Poll(maxRetries)) && AllTruthful(t, log, from)
      requires t.prefix == prefix && t.key == key && t.command == command && t.maxRetries == maxRetries
      modifies this
      ensures Valid() && old(cached) <= cached
      ensures found.Some? ==> found.value in cached
      ensures Longer(t, old(log), log, 0) && AllTruthful(t, log, from)
      ensures !ComputesSince(log, |old(log)|)
      ensures StandsAt(log, from, if found.Some? then CacheFill.Done(CacheFill.Returned(found.value)) else CacheFill.Compute(CacheFill.Unlocked))
    {
      for attempt := 0 to maxRetries
        invariant Valid() && old(cached) <= cached
        invariant Longer(t, old(log), log, 0) && AllTruthful(t, log, from) && !ComputesSince(log, |old(log)|)
        invariant StandsAt(log, from, CacheFill.Poll(maxRetries - attempt))
      {
        ghost var before := log;
        found := PollOnce(key, command(4 + attempt), t, from, maxRetries - attempt);
        LongerTwice(t, old(log), before, log, 0);
        if found.Some? {
          return;
        }
      }
      ghost var last := Moment(CacheFill.Poll(0), CacheFill.Spent, Runs, entries, pool.store, pool.now);
      GoesOn(t, log, from, last, CacheFill.Compute(CacheFill.Unlocked));
      LongerByOne(t, old(log), log, last, 0);
      log := log + [last];
      return None;
    }

    /** Behind a closed gate: the computation alone. */
    method Bypass(fallback: Result<Data, string>, ghost t: Terms, ghost from: nat) returns (r: Result<Data, CacheError>)
      requires Valid() && pool != null && StandsAt(log, from, CacheFill.Contend) && AllTruthful(t, log, from)
      requires t.gateBlocked && t.fallback == fallback
      modifies this`log
      ensures r == Computed(fallback) && AllTruthful(t, log, from) && StandsAt(log, from, CacheFill.Done(OutcomeOf(r)))
      ensures Attempted(t, old(log), log) && log[|old(log)|].sight == CacheFill.Gated && ComputesSince(log, |old(log)|)
    {
      r := Computed(fallback);
      ghost var gated := Moment(CacheFill.Contend, CacheFill.Gated, Runs, entries, pool.store, pool.now);
      ghost var computed := Moment(CacheFill.Compute(CacheFill.Bypass), FallbackSight(fallback), Runs, entries, pool.store, pool.now);
      GoesOn(t, log, from, gated, CacheFill.Compute(CacheFill.Bypass));
      GoesOn(t, log + [gated], from, computed, CacheFill.Done(OutcomeOf(r)));
      log := log + [gated] + [computed];
      LongerSelf(t, old(log) + [gated], 0);
      LongerByOne(t, old(log) + [gated], old(log) + [gated], computed, 0);
      FromAttempt(t, old(log), old(log) + [gated], log, 0);
    }

    /** The attempt to take the lock as a step of the call. */
    method TakeLock(key: string, ttl: Duration, maxRetries: nat, token: Value, net: nat -> Net, ghost t: Terms, ghost from: nat)
      returns (acquired: Result<LockGuard?, LockError>)
      requires Valid() && pool != null && StandsAt(log, from, CacheFill.Contend) && AllTruthful(t, log, from)
      requires AskedFor(t, prefix, key, token) && t.ttl == ttl && t.maxRetries == maxRetries && !t.gateBlocked
      requires NoneOf(pool.store, token)
      modifies this`log, pool
      ensures |log| == |old(log)| + 1 && log[..|old(log)|] == old(log) && log[|old(log)|].pc == CacheFill.Contend
      ensures log[|old(log)|].sight == ContendSight(acquired, maxRetries) && log[|old(log)|].now == pool.now
      ensures AllTruthful(t, log, from) && StandsAt(log, from, AfterAttempt(ContendSight(acquired, maxRetries)))
      ensures acquired.Ok? && acquired.value != null ==>
                && fresh(acquired.value) && acquired.value.pool == pool && acquired.value.key == BuildLockKey(prefix, key)
                && acquired.value.value == token && HeldWithin(t, pool.store, pool.now, pool.now + ttl)
      ensures acquired.Err? ==> ttl == 0 || DownBy(net, maxRetries)
      ensures OnlyAt(pool.store, BuildLockKey(prefix, key), token)
      ensures acquired == Ok(null) || (acquired.Err? && RepliesArrive(net)) ==>
                NoneOf(pool.store, token)
      ensures FreeAt(old(pool.store), old(pool.now), t) && net(0).Up? ==>
                acquired.Ok? && acquired.value != null && pool.now == old(pool.now)
    {
      ghost var before := log;
      acquired := Contend(key, ttl, maxRetries, token, net);
      GoesOn(t, before, from, log[|before|], AfterAttempt(log[|before|].sight));
    }

    /** From the attempt to take the lock on. */
    method Contended(key: string, ttl: Duration, maxRetries: nat, token: Value, fallback: Result<Data, string>,
                     command: nat -> Command, net: nat -> Net, ghost t: Terms, ghost from: nat)
      returns (r: Result<Data, CacheError>, ran: bool)
      requires Valid() && pool != null && StandsAt(log, from, CacheFill.Contend) && AllTruthful(t, log, from)
      requires t == Terms(prefix, key, ttl, maxRetries, token, false, fallback, command)
      requires NoneOf(pool.store, token)
      modifies this, pool
      ensures Valid() && old(cached) <= cached
      ensures ran ==> r == Computed(fallback)
      ensures !ran ==> r.Ok? && r.value in cached
      ensures AllTruthful(t, log, from) && StandsAt(log, from, CacheFill.Done(OutcomeOf(r)))
      ensures Attempted(t, old(log), log) && (ran <==> ComputesSince(log, |old(log)|))
      ensures log[|old(log)|].sight == CacheFill.Broken ==> ttl == 0 || DownBy(net, maxRetries)
      ensures FreeAt(old(pool.store), old(pool.now), t) && net(0).Up? ==>
                log[|old(log)|].sight.Taken? && log[|old(log)|].now == old(pool.now)
      ensures ran && fallback.Ok? && command(3).Runs? ==>
                BuildKey(prefix, key) in entries && entries[BuildKey(prefix, key)] == fallback.value
      ensures net(maxRetries).Up? && RepliesArrive(net) ==>
                NoneLive(pool.store, pool.now, token)
    {
      var acquired := TakeLock(key, ttl, maxRetries, token, net, t, from);
      ghost var attempted := log;
      if acquired.Ok? && acquired.value != null {
        r, ran := Holding(key, acquired.value, token, fallback, command, net(maxRetries), t, from, pool.now + ttl);
        FromAttempt(t, old(log), attempted, log, attempted[|attempted| - 1].now + ttl);
      } else {
        r, ran := WithoutLock(key, acquired.Ok?, maxRetries, token, fallback, command, t, from);
        FromAttempt(t, old(log), attempted, log, 0);
      }
    }

    /** The call that did not get the lock: it polls, if the lock was busy, and computes without it. */
    method WithoutLock(key: string, busy: bool, maxRetries: nat, token: Value, fallback: Result<Data, string>,
                       command: nat -> Command, ghost t: Terms, ghost from: nat)
      returns (r: Result<Data, CacheError>, ran: bool)
      requires Valid() && pool != null && AllTruthful(t, log, from)
      requires AskedFor(t, prefix, key, token) && t.maxRetries == maxRetries && t.fallback == fallback && t.command == command
      requires StandsAt(log, from, if busy then CacheFill.Poll(maxRetries) else CacheFill.Compute(CacheFill.Unlocked))
      modifies this, pool
      ensures Valid() && old(cached) <= cached
      ensures ran ==> r == Computed(fallback)
      ensures !ran ==> r.Ok? && r.value in cached
      ensures Longer(t, old(log), log, 0) && AllTruthful(t, log, from) && StandsAt(log, from, CacheFill.Done(OutcomeOf(r)))
      ensures ran <==> ComputesSince(log, |old(log)|)
      ensures old(NoneOf(pool.store, token)) ==> NoneLive(pool.store, pool.now, token)
      ensures ran && fallback.Ok? && command(3).Runs? ==>
                BuildKey(prefix, key) in entries && entries[BuildKey(prefix, key)] == fallback.value
    {
      if busy {
        var polled := PollEntry(key, maxRetries, command, t, from);
        if polled.Some? {
          return Ok(polled.value), false;
        }
      }
      ghost var polled := log;
      r := ComputeAndFill(key, token, fallback, command(3), CacheFill.Unlocked, t, from, 0);
      LongerTwice(t, old(log), polled, log, 0);
      if old(NoneOf(pool.store, token)) {
        OthersAddNone(old(pool.store), old(pool.now), pool.store, pool.now, token);
      }
      return r, true;
    }

    /**
      get_or_insert_with_lock.  `command` answers the cache commands in order and `net`
      the lock commands; `fallback` is what the caller's computation yields and `ran`
      tells whether it ran.  The log shows the course of the call.
     */
    method GetOrInsertWithLock(key: string, ttl: Duration, maxRetries: nat, token: Value, gateBlocked: bool,
                               fallback: Result<Data, string>, command: nat -> Command, net: nat -> Net)
      returns (r: Result<Data, CacheError>, ran: bool, ghost t: Terms)
      requires Valid()
      requires pool != null ==> NoneOf(pool.store, token)
      modifies this, pool
      ensures Valid() && old(cached) <= cached
      // The fallback alone decides the answer once it runs ...
      ensures ran ==> r == if fallback.Ok? then Ok(fallback.value) else Err(FallbackFailed)
      // ... and otherwise the value came out of the cache.
      ensures !ran && r.Ok? ==> pool != null && r.value in cached
      ensures !ran && r.Err? ==> pool != null && r.error in {Redis, NegativeCache}
      ensures pool == null ==> ran
      // A hit on the fast path neither computes nor touches a lock.
      ensures pool != null && command(0).Runs? && BuildKey(prefix, key) in old(entries) ==>
                r == Ok(old(entries)[BuildKey(prefix, key)]) && !ran && pool.store == old(pool.store)
      ensures pool != null && command(0).Fails? ==> r == Err(Redis) && !ran && pool.store == old(pool.store)
      // A marked key is refused before any lock is tried.
      ensures pool != null && command(0).Runs? && BuildKey(prefix, key) !in old(entries)
              && command(1).Runs? && old(Marked(key)) ==>
                r == Err(NegativeCache) && !ran && pool.store == old(pool.store)
      // Behind a closed gate, or without a pool, neither the lock nor the cache is touched.
      ensures pool == null || gateBlocked ==> entries == old(entries)
      ensures pool != null && gateBlocked ==> pool.store == old(pool.store)
      // A computed value is cached, and the lock does not outlive the call.
      ensures ran && pool != null && !gateBlocked && fallback.Ok? && command(3).Runs? ==>
                BuildKey(prefix, key) in entries && entries[BuildKey(prefix, key)] == fallback.value
      ensures pool != null && net(maxRetries).Up? && RepliesArrive(net) ==>
                NoneLive(pool.store, pool.now, token)
      // The call follows the program of the runs, each look is at the cache as it was, and a lock once taken is kept.
      ensures t == Terms(prefix, key, ttl, maxRetries, token, gateBlocked, fallback, command)
      ensures pool == null ==> log == old(log)
      ensures pool != null ==> |log| > |old(log)| && log[..|old(log)|] == old(log) && (ran <==> ComputesSince(log, |old(log)|))
      ensures pool != null ==> StandsAt(log, |old(log)|, CacheFill.Done(OutcomeOf(r)))
      ensures pool != null ==> AllTruthful(t, log, |old(log)|) && LockIsKept(t, log, |old(log)|)
      // A free lock is taken at once, and an attempt fails only by its time to live or the network.
      ensures pool != null && !gateBlocked && net(0).Up? && FreeAt(old(pool.store), old(pool.now), t) ==>
                TakenAt(log, |old(log)|, old(pool.now))
      ensures pool == null || NeverBroken(log, |old(log)|) || ttl == 0 || DownBy(net, maxRetries)
    {
      t := Terms(prefix, key, ttl, maxRetries, token, gateBlocked, fallback, command);
      if pool == null {
        return Computed(fallback), true, t;
      }
      var early := FastAnswer(key, command, t);
      ghost var fast := log;
      if early.Some? {
        NothingTaken(t, log, |old(log)|);
        return early.value, false, t;
      }
      if gateBlocked {
        r := Bypass(fallback, t, |old(log)|);
        ran := true;
      } else {
        r, ran := Contended(key, ttl, maxRetries, token, fallback, command, net, t, |old(log)|);
      }
      KeptFromAttempt(t, fast, log, |old(log)|);
    }
  }

  /** Where a call goes on after its computation, and after the filling of the cache. */
  function AfterFallback(mode: CacheFill.Mode, fallback: Result<Data, string>): CacheFill.Pc {
    if fallback.Ok? then CacheFill.Populate(mode, fallback.value) else AfterCompute(mode, Err(FallbackFailed))
  }

  function AfterCompute(mode: CacheFill.Mode, r: Result<Data, CacheError>): CacheFill.Pc {
    if mode == CacheFill.Locked then CacheFill.Unlock(OutcomeOf(r)) else CacheFill.Done(OutcomeOf(r))
  }

  function OutcomeOf(r: Result<Data, CacheError>): CacheFill.Outcome {
    if r.Ok? then CacheFill.Returned(r.value) else CacheFill.Failed
  }

  lemma BuildersKeepMarkersApart(prefix: string, key: string)
    ensures forall other: string :: BuildNullKey(prefix, other) == BuildNullKey(prefix, key) ==> other == key
  {
    forall other: string | BuildNullKey(prefix, other) == BuildNullKey(prefix, key)
      ensures other == key
    {
      BuildersAreInjective(prefix, other, key);
    }
  }

  /**
    One key space has its price: caching a value under a key that ends in the marker
    suffix marks the rest of that key as missing.
   */
  method CachedSuffixHidesKey(service: CacheService, key: string, data: Data, ttl: Duration, maxRetries: nat, token: Value,
                              fallback: Result<Data, string>, command: nat -> Command, net: nat -> Net)
    returns (r: Result<Data, CacheError>, ran: bool)
    requires service.Valid() && service.pool != null && BuildKey(service.prefix, key) !in service.entries
    requires NoneOf(service.pool.store, token)
    requires command(0).Runs? && command(1).Runs?
    modifies service, service.pool
    ensures r == Err(NegativeCache) && !ran
  {
    EntryMeetsMarker(service.prefix, key + NULL_MARKER_SUFFIX, key);
    BuildersAreInjective(service.prefix, key, key + NULL_MARKER_SUFFIX);
    service.Set(key + NULL_MARKER_SUFFIX, data, Runs);
    ghost var t;
    r, ran, t := service.GetOrInsertWithLock(key, ttl, maxRetries, token, false, fallback, command, net);
  }

  function Computed(fallback: Result<Data, string>): Result<Data, CacheError> {
    if fallback.Ok? then Ok(fallback.value) else Err(FallbackFailed)
  }
}
