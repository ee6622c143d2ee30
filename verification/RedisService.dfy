/**
  The Redis keyspace as the application uses it (src/redis/redis.service.ts).

  Every command and every Lua script is one atomic step, so each method below states the whole new value
  of the entry it touches, by a function on values that the interleaved protocols share.
  Keys of different kinds never collide in this application, so each kind has its own map.
 */
module RedisService {
  import opened Common
  import LB = LeakyBucket

  /** A fresh UUID; the caller supplies it. */
  type Token = nat

  datatype Lock = Free | Held(token: Token, expiry: int)

  /** SET resource token PX ttl NX */
  function SetIfAbsent(lock: Lock, token: Token, expiry: int): Lock {
    if lock.Free? then Held(token, expiry) else lock
  }

  /** The release script: delete only when the stored token is the caller's. */
  function DeleteIfOwner(lock: Lock, token: Token): Lock {
    if lock.Held? && lock.token == token then Free else lock
  }

  /** What a reader at time `now` finds: a key whose TTL has run out is gone. */
  function Current(lock: Lock, now: int): Lock {
    if lock.Held? && lock.expiry <= now then Free else lock
  }

  /** A key set with a TTL is there for that long and no longer. */
  lemma LivesFor(token: Token, start: int, ttlMs: int, ms: int)
    ensures Current(Held(token, start + ttlMs), start + ms) == if ms < ttlMs then Held(token, start + ttlMs) else Free
  {
  }

  /** An inventory counter: a missing key stands for the initial value. */
  type Counter = Option<int>

  function Reading(counter: Counter, initial: int): int {
    if counter.Some? then counter.value else initial
  }

  /** The check-and-decrement script: the new entry and the reply. */
  function TakeOne(counter: Counter, initial: int): (Counter, int) {
    var n := Reading(counter, initial);
    if n <= 0 then (Some(n), -1) else (Some(n - 1), n - 1)
  }

  /** INCR: Redis starts a missing counter from 0. */
  function PutBack(counter: Counter): Counter {
    Some(Reading(counter, 0) + 1)
  }

  /** The hash behind a leaky bucket, with the level as the script's fraction. */
  datatype Hash = Hash(level: real, last: int, expiry: int)

  /** Stored levels are whole thousandths, so scaling by 1000 loses nothing. */
  predicate Exact(level: real) {
    level * 1000.0 == (level * 1000.0).Floor as real
  }

  function Thousandths(level: real): int {
    (level * 1000.0).Floor
  }

  class RedisService {
    /** The server's clock in milliseconds. */
    var clock: int
    var locks: map<string, Lock>
    var counters: map<string, int>
    var hashes: map<string, Hash>
    var bitmaps: map<string, set<nat>>

    ghost predicate Valid()
      reads this
    {
      forall id :: id in hashes ==> Exact(hashes[id].level)
    }

    constructor ()
      ensures Valid()
      ensures locks == map[] && counters == map[] && hashes == map[] && bitmaps == map[]
    {
      clock, locks, counters, hashes, bitmaps := 0, map[], map[], map[], map[];
    }

    function LockAt(resource: string): Lock
      reads this
    {
      if resource in locks then Current(locks[resource], clock) else Free
    }

    function CounterAt(key: string): Counter
      reads this
    {
      if key in counters then Some(counters[key]) else None
    }

    function BucketAt(id: string): LB.Bucket
      reads this
    {
      if id in hashes && clock < hashes[id].expiry then
        LB.Stored(Thousandths(hashes[id].level), hashes[id].last)
      else LB.Absent
    }

    function BitsAt(key: string): set<nat>
      reads this
    {
      if key in bitmaps then bitmaps[key] else {}
    }

    // ------------------------------------------------------- distributed lock

    method AcquireLock(resource: string, ttlMs: int, token: Token) returns (acquired: Option<Token>)
      requires 0 < ttlMs
      modifies this`locks
      ensures acquired == if old(LockAt(resource)).Free? then Some(token) else None
      ensures LockAt(resource) == SetIfAbsent(old(LockAt(resource)), token, clock + ttlMs)
      ensures acquired.None? ==> locks == old(locks)
      // taken exactly when the key was missing or its time was up, and from now on there for ttlMs
      ensures acquired.Some? <==>
                (resource in old(locks) && old(locks[resource]).Held? ==> old(locks[resource]).expiry <= clock)
      ensures acquired.Some? ==> acquired.value == token && locks == old(locks)[resource := Held(token, clock + ttlMs)]
      ensures forall r :: r != resource ==> LockAt(r) == old(LockAt(r))
    {
      acquired := None;
      if LockAt(resource).Free? {
        locks := locks[resource := Held(token, clock + ttlMs)];
        acquired := Some(token);
      }
    }

    method ReleaseLock(resource: string, token: Token)
      modifies this`locks
      ensures LockAt(resource) == DeleteIfOwner(old(LockAt(resource)), token)
      ensures old(LockAt(resource)) != LockAt(resource) <==>
                old(LockAt(resource)).Held? && old(LockAt(resource)).token == token
      ensures old(LockAt(resource)) != LockAt(resource) ==> LockAt(resource) == Free
      ensures forall r :: r != resource ==> LockAt(r) == old(LockAt(r))
    {
      var held := LockAt(resource);
      if held.Held? && held.token == token {
        locks := locks - {resource};
      }
    }

    // -------------------------------------------------------------- inventory

    method CheckAndDecrement(key: string, initialValue: int) returns (remaining: int)
      modifies this`counters
      ensures (CounterAt(key), remaining) == TakeOne(old(CounterAt(key)), initialValue)
      ensures var n := if key in old(counters) then old(counters[key]) else initialValue;
              && key in counters
              && (if 0 < n then remaining == counters[key] == n - 1 else remaining == -1 && counters[key] == n)
      ensures forall k :: k != key ==> CounterAt(k) == old(CounterAt(k))
    {
      if key !in counters {
        counters := counters[key := initialValue];
      }
      var n := counters[key];
      if n <= 0 {
        return -1;
      }
      counters := counters[key := n - 1];
      remaining := counters[key];
    }

    method Increment(key: string)
      modifies this`counters
      ensures CounterAt(key) == PutBack(old(CounterAt(key)))
      ensures CounterAt(key) == Some((if key in old(counters) then old(counters[key]) else 0) + 1)
      ensures forall k :: k != key ==> CounterAt(k) == old(CounterAt(k))
    {
      counters := counters[key := (if key in counters then counters[key] else 0) + 1];
    }

    method SetCounter(key: string, value: int)
      modifies this`counters
      ensures CounterAt(key) == Some(value)
      ensures forall k :: k != key ==> CounterAt(k) == old(CounterAt(k))
    {
      counters := counters[key := value];
    }

    // ------------------------------------------------------------------- bits

    method SetBit(key: string, offset: nat, value: bool)
      modifies this`bitmaps
      ensures BitsAt(key) == if value then old(BitsAt(key)) + {offset} else old(BitsAt(key)) - {offset}
      ensures forall k :: k != key ==> BitsAt(k) == old(BitsAt(k))
    {
      var bits := BitsAt(key);
      bitmaps := bitmaps[key := if value then bits + {offset} else bits - {offset}];
    }

    // ----------------------------------------------------------- leaky bucket

    /** The script in its own arithmetic over fractions; `now` is the caller's clock, not the server's. */
    method LeakyBucket(id: string, capacity: int, leakRate: int, now: int) returns (allowed: bool, level: real)
      requires Valid() && LB.Limits(capacity, leakRate).Valid()
      modifies this`hashes
      ensures Valid()
      ensures allowed == LB.Admits(LB.Limits(capacity, leakRate), old(BucketAt(id)), now)
      ensures BucketAt(id) == LB.Next(LB.Limits(capacity, leakRate), old(BucketAt(id)), now)
      ensures level == BucketAt(id).level as real / 1000.0
      ensures hashes[id].expiry == clock + 1000 * LB.TtlSeconds(LB.Limits(capacity, leakRate))
      ensures forall other :: other != id ==> BucketAt(other) == old(BucketAt(other))
    {
      ghost var q := LB.Limits(capacity, leakRate);
      ghost var bucket := BucketAt(id);
      var present := id in hashes && clock < hashes[id].expiry;
      var fill := if present then hashes[id].level else 0.0;
      var lastTime := if present then hashes[id].last else now;

      var elapsedMs := now - lastTime;
      ScaledLeak(fill, elapsedMs, leakRate);
      var drained := fill - (elapsedMs as real / 1000.0) * leakRate as real;
      fill := if drained < 0.0 then 0.0 else drained;
      assert fill * 1000.0 == LB.Drained(q, bucket, now) as real;

      allowed := false;
      if fill + 1.0 <= capacity as real {
        fill := fill + 1.0;
        allowed := true;
      }
      assert fill * 1000.0 == LB.Next(q, bucket, now).level as real;

      var ttl := (capacity + leakRate - 1) / leakRate + 1;
      TtlIsPositive(q);
      hashes := hashes[id := Hash(fill, now, clock + 1000 * ttl)];
      level := (fill * 1000.0).Floor as real / 1000.0;
    }
  }

  lemma TtlIsPositive(q: LB.Limits)
    requires q.Valid()
    ensures 0 < LB.TtlSeconds(q)
  {
  }

  /** Draining a whole number of thousandths leaves a whole number of thousandths. */
  lemma ScaledLeak(level: real, elapsedMs: int, leakRate: int)
    requires Exact(level)
    ensures (level - (elapsedMs as real / 1000.0) * leakRate as real) * 1000.0
         == (Thousandths(level) - elapsedMs * leakRate) as real
  {
    RealProduct(elapsedMs, leakRate);
    ghost var a, b := elapsedMs as real, leakRate as real;
    assert (a / 1000.0) * b * 1000.0 == a * b;
  }

  lemma RealProduct(a: int, b: int)
    ensures a as real * b as real == (a * b) as real
  {
  }
}
