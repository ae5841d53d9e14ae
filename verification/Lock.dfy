/**
  Redis-backed locks with a time to live and ownership-checked release
  (crates/keycompute-cache/src/lock.rs).

  Lock values are numbers; a fresh value stands for a fresh UUID.  The classes
  `Server` and `LockGuard` carry the source's methods; `World` interleaves any
  number of callers over any number of keys, with lost replies and expiry.
 */
module DistributedLock {
  import opened Common

  type Key = string
  type Value = nat

  datatype Entry = Entry(value: Value, expiry: Time)

  type Store = map<Key, Entry>

  predicate Live(slot: Option<Entry>, now: Time) {
    slot.Some? && now < slot.value.expiry
  }

  function Slot(store: Store, key: Key): Option<Entry> {
    if key in store then Some(store[key]) else None
  }

  /** SET key value NX EX ttl: takes a free slot, leaves a live one alone. */
  function SetNx(slot: Option<Entry>, value: Value, ttl: Duration, now: Time): Option<Entry> {
    if Live(slot, now) then slot else Some(Entry(value, now + ttl))
  }

  /** The release script: deletes the slot only while it holds the given value. */
  function SafeRelease(slot: Option<Entry>, value: Value, now: Time): Option<Entry> {
    if Live(slot, now) && slot.value.value == value then None else slot
  }

  function Put(store: Store, key: Key, slot: Option<Entry>): Store {
    if slot.Some? then store[key := slot.value] else store - {key}
  }

  // ---- The source's methods --------------------------------------------------

  datatype LockError = RedisError | PoolError

  /** What the network does to one command. */
  datatype Net = Up | PoolDown | ReplyLost

  class Server {
    var store: Store
    var now: Time

    constructor (now: Time)
      ensures store == map[] && this.now == now
    {
      store, this.now := map[], now;
    }

    /** Other clients and the clock; none of them knows `value`. */
    method OthersRun(value: Value)
      modifies this
      ensures old(now) <= now
      ensures forall k :: k in store && store[k].value == value ==> k in old(store) && store[k] == old(store)[k]
      ensures forall k :: k in old(store) && old(store)[k].value == value && now < old(store)[k].expiry ==>
                k in store && store[k] == old(store)[k]
    {
      var steps: nat :| 0 <= steps;
      while steps > 0
        invariant old(now) <= now
        invariant forall k :: k in store && store[k].value == value ==> k in old(store) && store[k] == old(store)[k]
        invariant forall k :: k in old(store) && old(store)[k].value == value && now < old(store)[k].expiry ==>
                    k in store && store[k] == old(store)[k]
      {
        var any: nat :| 0 <= any;
        var other: Value := if any < value then any else any + 1;
        var key: Key :| 0 <= |key|;
        var ttl: Duration :| 0 <= ttl;
        if * {
          now := now + ttl;
        } else if * {
          store := Put(store, key, SetNx(Slot(store, key), other, ttl, now));
        } else {
          store := Put(store, key, SafeRelease(Slot(store, key), other, now));
        }
        steps := steps - 1;
      }
    }

    /** The SET NX EX loop; redis refuses a zero time to live. */
    method TryAcquireWithRetry(key: Key, value: Value, ttl: Duration, maxRetries: nat, net: nat -> Net)
      returns (r: Result<bool, LockError>)
      requires forall k :: k in store ==> store[k].value != value
      modifies this
      ensures old(now) <= now
      ensures r == Ok(true) ==> Slot(store, key) == Some(Entry(value, now + ttl)) && ttl > 0
      ensures r == Ok(false) ==> forall k :: k in store ==> store[k].value != value
      ensures r == Ok(false) && maxRetries > 0 ==> Live(Slot(store, key), now)
      ensures r == Ok(false) ==> forall a: nat :: a < maxRetries ==> net(a).Up?
      ensures maxRetries > 0 && ttl > 0 && net(0).Up? && !Live(Slot(old(store), key), old(now)) ==>
                r == Ok(true) && now == old(now)
      ensures forall k :: k in store && store[k].value == value ==> k == key
      ensures (forall k :: k in store ==> store[k].value != value) || r == Ok(true) || exists a: nat :: net(a).ReplyLost?
      ensures r.Ok? || ttl == 0 || exists a: nat :: a < maxRetries && !net(a).Up?
    {
      for attempt := 0 to maxRetries
        invariant old(now) <= now
        invariant forall k :: k in store ==> store[k].value != value
        invariant attempt == 0 ==> store == old(store) && now == old(now)
        invariant attempt > 0 && net(0).Up? && ttl > 0 ==> Live(Slot(old(store), key), old(now))
        invariant attempt > 0 && attempt == maxRetries ==> Live(Slot(store, key), now)
        invariant forall a: nat :: a < attempt ==> net(a).Up?
      {
        if net(attempt).PoolDown? {
          return Err(PoolError);
        }
        if ttl == 0 {
          return Err(RedisError);
        }
        var slot := Slot(store, key);
        store := Put(store, key, SetNx(slot, value, ttl, now));
        if net(attempt).ReplyLost? {
          return Err(RedisError);
        }
        if !Live(slot, now) {
          return Ok(true);
        }
        if attempt + 1 < maxRetries {
          OthersRun(value);
        }
      }
      return Ok(false);
    }

    /** Run the release script once, if the network lets it through. */
    method ReleaseLock(key: Key, value: Value, net: Net) returns (r: Result<(), LockError>)
      modifies this`store
      ensures r.Ok? <==> net.Up?
      ensures r.Ok? ==> !(Live(Slot(store, key), now) && Slot(store, key).value.value == value)
      ensures forall k :: Live(Slot(old(store), k), now) && (k != key || Slot(old(store), k).value.value != value) ==>
                Slot(store, k) == Slot(old(store), k)
      ensures forall k :: k in store ==> k in old(store) && store[k] == old(store)[k]
    {
      if net.PoolDown? {
        return Err(PoolError);
      }
      store := Put(store, key, SafeRelease(Slot(store, key), value, now));
      if net.ReplyLost? {
        return Err(RedisError);
      }
      return Ok(());
    }
  }

  class LockGuard {
    var pool: Server?
    var key: Key
    var value: Value

    constructor (pool: Server?, key: Key, value: Value)
      ensures this.pool == pool && this.key == key && this.value == value
    {
      this.pool, this.key, this.value := pool, key, value;
    }

    /** Fail-open acquisition: no pool means no lock, and no error. */
    static method Acquire(pool: Server?, key: Key, token: Value, ttl: Duration, maxRetries: nat, net: nat -> Net)
      returns (r: Result<Option<LockGuard?>, LockError>)
      requires pool != null ==> forall k :: k in pool.store ==> pool.store[k].value != token
      modifies pool
      ensures pool == null ==> r == Ok(None)
      ensures pool != null && r.Ok? ==> r.value.Some?
      ensures r.Ok? && r.value.Some? && r.value.value != null ==>
                && pool != null && fresh(r.value.value)
                && r.value.value.pool == pool && r.value.value.key == key && r.value.value.value == token
                && Slot(pool.store, key) == Some(Entry(token, pool.now + ttl))
      ensures pool != null && r == Ok(Some(null)) ==> forall k :: k in pool.store ==> pool.store[k].value != token
      ensures pool != null && r == Ok(Some(null)) && maxRetries > 0 ==> Live(Slot(pool.store, key), pool.now)
      ensures pool != null && r == Ok(Some(null)) ==> forall a: nat :: a < maxRetries ==> net(a).Up?
      ensures pool != null && r.Err? ==> ttl == 0 || exists a: nat :: a < maxRetries && !net(a).Up?
      ensures pool != null && maxRetries > 0 && ttl > 0 && net(0).Up? && !Live(Slot(old(pool.store), key), old(pool.now)) ==>
                r.Ok? && r.value.Some? && r.value.value != null && pool.now == old(pool.now)
      ensures pool != null ==> forall k :: k in pool.store && pool.store[k].value == token ==> k == key
      ensures pool != null && (forall a: nat :: !net(a).ReplyLost?) && r.Err? ==>
                forall k :: k in pool.store ==> pool.store[k].value != token
    {
      if pool == null {
        return Ok(None);
      }
      var acquired := pool.TryAcquireWithRetry(key, token, ttl, maxRetries, net);
      if acquired.Err? {
        return Err(acquired.error);
      }
      if acquired.value {
        var guard := new LockGuard(pool, key, token);
        return Ok(Some(guard));
      }
      return Ok(Some(null));
    }

    /** Explicit release; after a failure the guard is whole again for `Drop` to retry. */
    method Release(net: Net) returns (r: Result<(), LockError>)
      modifies this, pool
      ensures old(pool) == null ==> r.Ok?
      ensures old(pool) != null ==> (r.Ok? <==> net.Up?) && old(pool).now == old(pool.now)
      ensures r.Ok? ==> pool == null && key == ""
      ensures r.Err? ==> pool == old(pool) && key == old(key) && value == old(value)
      ensures old(pool) != null ==> OnlyOwnLockDeleted(old(pool.store), old(pool).store, old(pool).now, old(key), old(value))
      ensures r.Ok? && old(pool) != null ==>
                !(Live(Slot(old(pool).store, old(key)), old(pool).now)
                  && Slot(old(pool).store, old(key)).value.value == old(value))
    {
      var p, k, v := pool, key, value;
      pool, key, value := null, "", 0;
      if p == null {
        return Ok(());
      }
      r := p.ReleaseLock(k, v, net);
      if r.Err? {
        pool, key, value := p, k, v;
      }
    }

    /** The guard's destructor; without a runtime the lock is left to its expiry. */
    method Drop(net: Net, runtime: bool)
      modifies this, pool
      ensures pool == null
      ensures old(pool) != null ==> old(pool).now == old(pool.now)
      ensures old(pool) != null ==> OnlyOwnLockDeleted(old(pool.store), old(pool).store, old(pool).now, old(key), old(value))
      ensures old(pool) != null ==> forall k :: k in old(pool).store ==> k in old(pool.store) && old(pool).store[k] == old(pool.store)[k]
      ensures old(pool) != null && (old(key) == "" || !runtime) ==> old(pool).store == old(pool.store)
      ensures old(pool) != null && old(key) != "" && runtime && net.Up? ==>
                !(Live(Slot(old(pool).store, old(key)), old(pool).now)
                  && Slot(old(pool).store, old(key)).value.value == old(value))
    {
      if pool != null {
        var p, k, v := pool, key, value;
        pool, key, value := null, "", 0;
        if |k| != 0 && runtime {
          var r := p.ReleaseLock(k, v, net);
        }
      }
    }
  }

  /** Between two stores, the only live lock that can disappear is `value` at `key`. */
  ghost predicate OnlyOwnLockDeleted(before: Store, after: Store, now: Time, key: Key, value: Value) {
    forall k :: Live(Slot(before, k), now) && (k != key || Slot(before, k).value.value != value) ==>
      Slot(after, k) == Slot(before, k)
  }

  // ---- Runs ------------------------------------------------------------------

  /**
    A caller and, from `Held` on, its guard.  The caller's index is its lock value.
    `Releasing` is an explicit release in flight; `Dropping` a guard whose destructor
    still has to run, either directly or after a failed release restored its fields.
   */
  datatype Phase = Waiting | Held | Releasing | Dropping | Over

  datatype Caller = Caller(key: Key, ttl: Duration, phase: Phase, deadline: Time)

  datatype World = World(store: Store, now: Time, callers: seq<Caller>)

  datatype Action =
    | Arrive(key: Key, ttl: Duration)
    | TrySet(c: nat, replyLost: bool)
    | GiveUp(c: nat)
    | StartRelease(c: nat)
    | ReleaseScript(c: nat, replyLost: bool)
    | ReleaseUnsent(c: nat)
    | StartDrop(c: nat)
    | DropScript(c: nat)
    | DropUnsent(c: nat)
    | Tick(elapsed: Duration)

  predicate Enabled(w: World, a: Action) {
    match a
    case Arrive(_, _) => true
    case TrySet(c, _) => c < |w.callers| && w.callers[c].phase == Waiting
    case GiveUp(c) => c < |w.callers| && w.callers[c].phase == Waiting
    case StartRelease(c) => c < |w.callers| && w.callers[c].phase == Held
    case ReleaseScript(c, _) => c < |w.callers| && w.callers[c].phase == Releasing
    case ReleaseUnsent(c) => c < |w.callers| && w.callers[c].phase == Releasing
    case StartDrop(c) => c < |w.callers| && w.callers[c].phase == Held
    case DropScript(c) => c < |w.callers| && w.callers[c].phase == Dropping
    case DropUnsent(c) => c < |w.callers| && w.callers[c].phase == Dropping
    case Tick(_) => true
  }

  function To(w: World, c: nat, phase: Phase): World
    requires c < |w.callers|
  {
    w.(callers := w.callers[c := w.callers[c].(phase := phase)])
  }

  function Scripted(w: World, c: nat): World
    requires c < |w.callers|
  {
    var key := w.callers[c].key;
    w.(store := Put(w.store, key, SafeRelease(Slot(w.store, key), c, w.now)))
  }

  function Step(w: World, a: Action): World
    requires Enabled(w, a)
  {
    match a
    case Arrive(key, ttl) => w.(callers := w.callers + [Caller(key, ttl, Waiting, 0)])
    case TrySet(c, replyLost) =>
      var me := w.callers[c];
      var slot := Slot(w.store, me.key);
      if me.ttl == 0 then To(w, c, Over)
      else
        var w' := w.(store := Put(w.store, me.key, SetNx(slot, c, me.ttl, w.now)));
        if Live(slot, w.now) then if replyLost then To(w', c, Over) else w'
        else
          w'.(callers := w.callers[c := me.(phase := if replyLost then Over else Held, deadline := w.now + me.ttl)])
    case GiveUp(c) => To(w, c, Over)
    case StartRelease(c) => To(w, c, Releasing)
    case ReleaseScript(c, replyLost) => To(Scripted(w, c), c, if replyLost then Dropping else Over)
    case ReleaseUnsent(c) => To(w, c, Dropping)
    case StartDrop(c) => To(w, c, Dropping)
    case DropScript(c) => To(Scripted(w, c), c, Over)
    case DropUnsent(c) => To(w, c, Over)
    case Tick(d) => w.(now := w.now + d)
  }

  ghost predicate Next(w: World, w': World) {
    exists a :: Enabled(w, a) && w' == Step(w, a)
  }

  /** State i of the sequence follows from the one before. */
  ghost predicate Linked(ws: seq<World>, i: nat)
    requires 0 < i < |ws|
  {
    Next(ws[i - 1], ws[i])
  }

  ghost predicate Run(ws: seq<World>) {
    && |ws| > 0 && ws[0].store == map[] && ws[0].callers == []
    && (forall i :: 0 < i < |ws| ==> Linked(ws, i))
  }

  /** The caller believes it holds its lock and the time to live has not run out. */
  predicate Holds(w: World, c: nat)
    requires c < |w.callers|
  {
    w.callers[c].phase == Held && w.now < w.callers[c].deadline
  }

  /** Every entry belongs to the caller that wrote it, until that caller's deadline. */
  predicate EntriesHaveOwners(w: World) {
    forall k :: k in w.store ==>
      && w.store[k].value < |w.callers|
      && w.callers[w.store[k].value].phase != Waiting
      && w.callers[w.store[k].value].key == k
      && w.callers[w.store[k].value].deadline == w.store[k].expiry
  }

  /** A caller that holds its lock is the one the server records. */
  predicate HoldersAreRecorded(w: World) {
    forall c :: 0 <= c < |w.callers| && Holds(w, c) ==>
      Slot(w.store, w.callers[c].key) == Some(Entry(c, w.callers[c].deadline))
  }

  ghost predicate Inv(w: World) {
    EntriesHaveOwners(w) && HoldersAreRecorded(w)
  }

  /** Leaving `Held`, or moving on after it, claims nothing new. */
  lemma LeavingKeepsInv(w: World, c: nat, phase: Phase)
    requires Inv(w) && c < |w.callers| && phase != Held && phase != Waiting
    ensures Inv(To(w, c, phase))
  {
    var w' := To(w, c, phase);
    forall d | 0 <= d < |w'.callers| && Holds(w', d)
      ensures Slot(w'.store, w'.callers[d].key) == Some(Entry(d, w'.callers[d].deadline))
    {
      assert Holds(w, d);
    }
  }

  lemma ScriptKeepsInv(w: World, c: nat)
    requires Inv(w) && c < |w.callers| && w.callers[c].phase != Held
    ensures Inv(Scripted(w, c))
  {
    var w' := Scripted(w, c);
    forall d | 0 <= d < |w'.callers| && Holds(w', d)
      ensures Slot(w'.store, w'.callers[d].key) == Some(Entry(d, w'.callers[d].deadline))
    {
      assert Holds(w, d);
    }
  }

  lemma TrySetKeepsInv(w: World, c: nat, replyLost: bool)
    requires Inv(w) && Enabled(w, TrySet(c, replyLost))
    ensures Inv(Step(w, TrySet(c, replyLost)))
  {
    var w' := Step(w, TrySet(c, replyLost));
    if w.callers[c].ttl == 0 {
      LeavingKeepsInv(w, c, Over);
    } else if Live(Slot(w.store, w.callers[c].key), w.now) {
      assert Put(w.store, w.callers[c].key, Slot(w.store, w.callers[c].key)) == w.store;
      LeavingKeepsInv(w, c, Over);
    } else {
      forall d | 0 <= d < |w'.callers| && Holds(w', d)
        ensures Slot(w'.store, w'.callers[d].key) == Some(Entry(d, w'.callers[d].deadline))
      {
        assert d == c || Holds(w, d);
      }
    }
  }

  lemma StepKeepsInv(w: World, a: Action)
    requires Inv(w) && Enabled(w, a)
    ensures Inv(Step(w, a))
  {
    match a
    case Arrive(_, _) =>
      assert forall d :: 0 <= d < |w.callers| && Holds(Step(w, a), d) ==> Holds(w, d);
    case TrySet(c, replyLost) => TrySetKeepsInv(w, c, replyLost);
    case GiveUp(c) => LeavingKeepsInv(w, c, Over);
    case StartRelease(c) => LeavingKeepsInv(w, c, Releasing);
    case ReleaseScript(c, replyLost) =>
      ScriptKeepsInv(w, c);
      LeavingKeepsInv(Scripted(w, c), c, if replyLost then Dropping else Over);
    case ReleaseUnsent(c) => LeavingKeepsInv(w, c, Dropping);
    case StartDrop(c) => LeavingKeepsInv(w, c, Dropping);
    case DropScript(c) =>
      ScriptKeepsInv(w, c);
      LeavingKeepsInv(Scripted(w, c), c, Over);
    case DropUnsent(c) => LeavingKeepsInv(w, c, Over);
    case Tick(_) =>
      assert forall d :: 0 <= d < |w.callers| && Holds(Step(w, a), d) ==> Holds(w, d);
  }

  lemma {:induction false} RunInvariant(ws: seq<World>, i: nat)
    requires Run(ws) && i < |ws|
    ensures Inv(ws[i])
  {
    if i > 0 {
      RunInvariant(ws, i - 1);
      assert Linked(ws, i);
      var a :| Enabled(ws[i - 1], a) && ws[i] == Step(ws[i - 1], a);
      StepKeepsInv(ws[i - 1], a);
    }
  }

  /**
    A guard owns its lock for its whole time to live: until it releases or expires,
    the server records it and nobody else holds the same key.
   */
  lemma AtMostOneHolder(ws: seq<World>, i: nat, c: nat, d: nat)
    requires Run(ws) && i < |ws| && c < |ws[i].callers| && d < |ws[i].callers|
    requires ws[i].callers[c].key == ws[i].callers[d].key && Holds(ws[i], c) && Holds(ws[i], d)
    ensures c == d
    ensures Slot(ws[i].store, ws[i].callers[c].key) == Some(Entry(c, ws[i].callers[c].deadline))
  {
    RunInvariant(ws, i);
  }

  predicate IsRelease(a: Action, c: nat) {
    a == DropScript(c) || a == ReleaseScript(c, true) || a == ReleaseScript(c, false)
  }

  /** Releases, first tries and retries alike, delete no live lock but their own. */
  lemma ReleaseDeletesOnlyItsOwn(ws: seq<World>, i: nat, a: Action, c: nat)
    requires Run(ws) && i < |ws| && Enabled(ws[i], a) && IsRelease(a, c)
    ensures OnlyOwnLockDeleted(ws[i].store, Step(ws[i], a).store, ws[i].now, ws[i].callers[c].key, c)
    ensures forall d :: 0 <= d < |ws[i].callers| && Holds(ws[i], d) ==>
              Slot(Step(ws[i], a).store, ws[i].callers[d].key) == Some(Entry(d, ws[i].callers[d].deadline))
  {
    RunInvariant(ws, i);
  }

  /** A waiting caller gets the lock exactly when no live entry stands at its key. */
  lemma AcquireIffFree(ws: seq<World>, i: nat, c: nat)
    requires Run(ws) && i < |ws| && c < |ws[i].callers| && ws[i].callers[c].phase == Waiting && ws[i].callers[c].ttl > 0
    ensures Holds(Step(ws[i], TrySet(c, false)), c) <==> !Live(Slot(ws[i].store, ws[i].callers[c].key), ws[i].now)
    ensures Holds(Step(ws[i], TrySet(c, false)), c) ==>
              forall d :: 0 <= d < |ws[i].callers| && Holds(ws[i], d) ==> ws[i].callers[d].key != ws[i].callers[c].key
  {
    RunInvariant(ws, i);
  }
}
