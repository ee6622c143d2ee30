/**
  The product endpoints (src/product/product.controller.ts) as methods over one Redis server.

  Every await is a point where other calls, resets and time may move: what they do there is the script of the call,
  in labels of module Inventory, and every call of the endpoint is a run of that module's step system.
 */
module ProductController {
  import opened Common
  import opened Inventory
  import opened Texts
  import R = RedisService

  const INVENTORY_KEY := "inventory"
  const LOCK_KEY := "lock:inventory"
  const LOCK_RETRY_MS: nat := 50

  datatype Response =
    | Reply(success: bool, remaining: int, message: string)
    | LockContention
    | DeliveryFailure

  /** What happens elsewhere during each back-off, and before the decrement, release, emit and rollback take effect. */
  datatype Script = Script(backoffs: seq<seq<Label>>, decrement: seq<Label>, release: seq<Label>,
                           emit: seq<Label>, rollback: seq<Label>)

  /** Back-off after the given attempt. */
  function Delay(attempt: nat): nat
    requires 1 <= attempt
  {
    LOCK_RETRY_MS * Power2(attempt - 1)
  }

  /** How much time passes in the labels. */
  function Elapsed(labels: seq<Label>): nat {
    if labels == [] then 0 else
    var l := labels[|labels| - 1];
    Elapsed(labels[..|labels| - 1]) + if l.Pass? then l.ms else 0
  }

  /** How much time passes in the first `n` back-offs. */
  function Slept(backoffs: seq<seq<Label>>, n: nat): nat
    requires n <= |backoffs|
  {
    if n == 0 then 0 else Slept(backoffs, n - 1) + Elapsed(backoffs[n - 1])
  }

  /** The labels move other calls only. */
  predicate Elsewhere(labels: seq<Label>, i: nat) {
    forall k :: 0 <= k < |labels| ==>
      var l := labels[k];
      l.Start? || l.Pass? || l.Expire? || l.ResetStock? || l.client != i
  }

  /** Each back-off lasts at least as long as its timer says. */
  predicate ValidBackoffs(backoffs: seq<seq<Label>>, i: nat) {
    && |backoffs| == LOCK_RETRY_COUNT
    && forall n :: 0 <= n < LOCK_RETRY_COUNT ==> Elsewhere(backoffs[n], i) && Delay(n + 1) <= Elapsed(backoffs[n])
  }

  predicate ValidScript(script: Script, i: nat) {
    && ValidBackoffs(script.backoffs, i)
    && Elsewhere(script.decrement, i) && Elsewhere(script.release, i)
    && Elsewhere(script.emit, i) && Elsewhere(script.rollback, i)
  }

  lemma {:induction false} ElsewhereKeepsCall(s: State, labels: seq<Label>, i: nat)
    requires i < |s.clients| && Elsewhere(labels, i)
    ensures i < |Exec(s, labels).clients| && Exec(s, labels).clients[i] == s.clients[i]
  {
    if labels == [] {
    } else {
      ElsewhereKeepsCall(s, labels[..|labels| - 1], i);
    }
  }

  // ---------------------------------------------------- a call as a run

  /** After an await; Redis drops the lock key once its TTL has run out. */
  function Awaited(s: State, labels: seq<Label>): State {
    Do(Exec(s, labels), Expire)
  }

  predicate HasLock(s: State, i: nat) {
    i < |s.clients| && s.clients[i].Holding?
  }

  predicate MustEmit(s: State, i: nat) {
    i < |s.clients| && s.clients[i].Emitting?
  }

  predicate MustUndo(s: State, i: nat) {
    i < |s.clients| && s.clients[i].Undoing?
  }

  /** One pass of the retry loop: the attempt, and the back-off if it fails. */
  function Attempted(s: State, i: nat, backoff: seq<Label>): State {
    var tried := Do(s, Acquire(i));
    if HasLock(tried, i) then tried else Awaited(tried, backoff)
  }

  /** The first `n` passes of the retry loop, which ends as soon as the lock is had. */
  function Tried(s: State, i: nat, backoffs: seq<seq<Label>>, n: nat): State
    requires n <= |backoffs|
  {
    if n == 0 then s else
    var before := Tried(s, i, backoffs, n - 1);
    if HasLock(before, i) then before else
    Attempted(before, i, backoffs[n - 1])
  }

  /** The critical section: decrement and release. */
  function Reserved(s: State, i: nat, script: Script): State {
    Do(Awaited(Do(Awaited(s, script.decrement), Eval(i)), script.release), Release(i))
  }

  /** The emit, and the rollback if it throws. */
  function Announced(s: State, i: nat, script: Script, emit: EmitResult, correlationId: string): State {
    var emitted := Do(Awaited(s, script.emit), Emit(i, emit, correlationId));
    if MustUndo(emitted, i) then Do(Awaited(emitted, script.rollback), Rollback(i)) else emitted
  }

  /** Everything after the lock is had. */
  function Completed(s: State, i: nat, script: Script, emit: EmitResult, correlationId: string): State {
    var reserved := Reserved(s, i, script);
    if MustEmit(reserved, i) then Announced(reserved, i, script, emit, correlationId) else reserved
  }

  /** The whole call, from its beginning. */
  function Called(s: State, i: nat, script: Script, emit: EmitResult, correlationId: string): State
    requires ValidScript(script, i)
  {
    var tried := Tried(s, i, script.backoffs, LOCK_RETRY_COUNT);
    if HasLock(tried, i) then Completed(tried, i, script, emit, correlationId) else tried
  }

  /** A run followed by an await and a step. */
  lemma AwaitThenStep(s: State, trace: seq<Label>, labels: seq<Label>, l: Label)
    ensures Exec(s, trace + labels + [Expire]) == Awaited(Exec(s, trace), labels)
    ensures Exec(s, trace + labels + [Expire] + [l]) == Do(Awaited(Exec(s, trace), labels), l)
  {
    ExecThen(s, trace, labels);
    ExecStep(s, trace + labels, Expire);
    ExecStep(s, trace + labels + [Expire], l);
  }

  lemma {:induction false} TriesAreRun(s: State, i: nat, backoffs: seq<seq<Label>>, n: nat) returns (trace: seq<Label>)
    requires n <= |backoffs|
    ensures Exec(s, trace) == Tried(s, i, backoffs, n)
  {
    if n == 0 {
      trace := [];
    } else {
      trace := TriesAreRun(s, i, backoffs, n - 1);
      if !HasLock(Exec(s, trace), i) {
        ExecStep(s, trace, Acquire(i));
        trace := trace + [Acquire(i)];
        if !HasLock(Exec(s, trace), i) {
          AwaitThenStep(s, trace, backoffs[n - 1], Expire);
          trace := trace + backoffs[n - 1] + [Expire];
        }
      }
    }
  }

  lemma ReservedIsRun(s: State, i: nat, script: Script) returns (trace: seq<Label>)
    ensures Exec(s, trace) == Reserved(s, i, script)
  {
    AwaitThenStep(s, [], script.decrement, Eval(i));
    trace := [] + script.decrement + [Expire] + [Eval(i)];
    AwaitThenStep(s, trace, script.release, Release(i));
    trace := trace + script.release + [Expire] + [Release(i)];
  }

  lemma AnnouncedIsRun(s: State, i: nat, script: Script, emit: EmitResult, id: string) returns (trace: seq<Label>)
    ensures Exec(s, trace) == Announced(s, i, script, emit, id)
  {
    AwaitThenStep(s, [], script.emit, Emit(i, emit, id));
    trace := [] + script.emit + [Expire] + [Emit(i, emit, id)];
    if MustUndo(Exec(s, trace), i) {
      AwaitThenStep(s, trace, script.rollback, Rollback(i));
      trace := trace + script.rollback + [Expire] + [Rollback(i)];
    }
  }

  /** So every theorem on runs holds of every call of the endpoint, whatever other calls do meanwhile. */
  lemma CalledIsRun(s: State, i: nat, script: Script, emit: EmitResult, id: string) returns (trace: seq<Label>)
    requires ValidScript(script, i)
    ensures Exec(s, trace) == Called(s, i, script, emit, id)
  {
    trace := TriesAreRun(s, i, script.backoffs, LOCK_RETRY_COUNT);
    if HasLock(Exec(s, trace), i) {
      var more := ReservedIsRun(Exec(s, trace), i, script);
      ExecThen(s, trace, more);
      trace := trace + more;
      if MustEmit(Exec(s, trace), i) {
        more := AnnouncedIsRun(Exec(s, trace), i, script, emit, id);
        ExecThen(s, trace, more);
        trace := trace + more;
      }
    }
  }

  /** Once the lock is had, the loop is over. */
  lemma {:induction false} TriesStop(s: State, i: nat, backoffs: seq<seq<Label>>, k: nat, n: nat)
    requires k <= n <= |backoffs| && HasLock(Tried(s, i, backoffs, k), i)
    ensures Tried(s, i, backoffs, n) == Tried(s, i, backoffs, k)
  {
    if k == n {
    } else {
      TriesStop(s, i, backoffs, k, n - 1);
    }
  }

  // ---------------------------------------------- without interference

  /** What a call that has the lock does to the counter and the topic, and its response. */
  function CallEffect(counter: R.Counter, published: seq<Event>, emit: EmitResult, correlationId: string)
    : (R.Counter, seq<Event>, Response)
  {
    var stock := R.Reading(counter, INITIAL_STOCK);
    if stock <= 0 then (Some(stock), published, Reply(false, 0, "no inventory available")) else
    var event := ItemUsed(stock - 1, correlationId);
    match emit
    case Delivered => (Some(stock - 1), published + [event], Reply(true, stock - 1, Message(stock - 1)))
    case Lost => (Some(stock), published, DeliveryFailure)
    case DeliveredButFailed => (Some(stock), published + [event], DeliveryFailure)
  }

  /** The response of a finished call of the step system. */
  function ResponseOf(c: Client): Response {
    match c
    case Done(Success(remaining), _) => Reply(true, remaining, Message(if remaining < 0 then 0 else remaining))
    case Done(OutOfStock, _) => Reply(false, 0, "no inventory available")
    case Done(DeliveryFailed, _) => DeliveryFailure
    case _ => LockContention
  }

  /** What any caller may read from a response, and finds in the topic when it succeeded. */
  ghost predicate Truthful(response: Response, topic: seq<Event>, correlationId: string) {
    match response
    case Reply(true, remaining, message) =>
      && 0 <= remaining && Tells(message, remaining)
      && 0 < |topic| && topic[|topic| - 1] == Event(remaining, true, message, Some(correlationId))
    case Reply(false, remaining, message) => remaining == 0 && message == "no inventory available"
    case _ => true
  }

  /** Reference for a call that meets no other and gets the lock, when `n` items are left. */
  ghost predicate Served(n: int, emit: EmitResult, response: Response, left: R.Counter, added: int) {
    if n <= 0 then
      response.Reply? && !response.success && left == Some(n) && added == 0
    else match emit
      case Delivered =>
        response.Reply? && response.success && response.remaining == n - 1 && left == Some(n - 1) && added == 1
      case Lost => response.DeliveryFailure? && left == Some(n) && added == 0
      case DeliveredButFailed => response.DeliveryFailure? && left == Some(n) && added == 1
  }

  lemma EffectServes(counter: R.Counter, topic: seq<Event>, emit: EmitResult, id: string)
    ensures var (left, topic', response) := CallEffect(counter, topic, emit, id);
            && Served(if counter.Some? then counter.value else 1000, emit, response, left, |topic'| - |topic|)
            && topic <= topic'
  {
  }

  predicate OnlyTime(labels: seq<Label>) {
    forall k :: 0 <= k < |labels| ==> labels[k].Pass?
  }

  /** Nothing but time moves during the call. */
  predicate Alone(script: Script) {
    && (forall n :: 0 <= n < |script.backoffs| ==> OnlyTime(script.backoffs[n]))
    && OnlyTime(script.decrement) && OnlyTime(script.release) && OnlyTime(script.emit) && OnlyTime(script.rollback)
  }

  lemma {:induction false} TimePasses(s: State, labels: seq<Label>)
    requires OnlyTime(labels)
    ensures Exec(s, labels) == s.(now := s.now + Elapsed(labels))
  {
    if labels == [] {
    } else {
      TimePasses(s, labels[..|labels| - 1]);
    }
  }

  lemma AwaitTime(s: State, labels: seq<Label>)
    requires OnlyTime(labels)
    ensures var t := s.now + Elapsed(labels);
            Awaited(s, labels) == s.(now := t, lock := R.Current(s.lock, t))
  {
    TimePasses(s, labels);
  }

  /** How long the first four back-offs take together. */
  function FirstFour(backoffs: seq<seq<Label>>): nat
    requires 4 <= |backoffs|
  {
    Elapsed(backoffs[0]) + Elapsed(backoffs[1]) + Elapsed(backoffs[2]) + Elapsed(backoffs[3])
  }

  lemma SleptFour(backoffs: seq<seq<Label>>)
    requires 4 <= |backoffs|
    ensures Slept(backoffs, 4) == FirstFour(backoffs)
  {
    assert Slept(backoffs, 1) == Elapsed(backoffs[0]);
    assert Slept(backoffs, 2) == Slept(backoffs, 1) + Elapsed(backoffs[1]);
    assert Slept(backoffs, 3) == Slept(backoffs, 2) + Elapsed(backoffs[2]);
  }

  /** The lock that call `i` found outlived its first `n` back-offs but the last. */
  predicate Outlives(s: State, backoffs: seq<seq<Label>>, n: nat)
    requires 1 <= n <= |backoffs|
  {
    s.lock.Held? && s.now + Slept(backoffs, n - 1) < s.lock.expiry
  }

  /** How a call stands that has tried `n` times and met nobody. */
  predicate TriedAlone(s: State, t: State, i: nat, backoffs: seq<seq<Label>>, n: nat)
    requires i < |s.clients| && n <= |backoffs|
  {
    && |t.clients| == |s.clients| && t.counter == s.counter && t.log == s.log
    && (n == 0 ==> t == s)
    && if t.clients[i].Holding? then
         t.lock == R.Held(t.clients[i].token, t.clients[i].since + LOCK_TTL_MS) && 0 < n && !Outlives(s, backoffs, n)
       else
         && t.clients[i] == (if n < LOCK_RETRY_COUNT then Acquiring(n + 1) else Contended)
         && t.now == s.now + Slept(backoffs, n) && t.lock == R.Current(s.lock, t.now)
         && (0 < n ==> Outlives(s, backoffs, n))
  }

  lemma TryAlone(s: State, t: State, i: nat, backoffs: seq<seq<Label>>, n: nat)
    requires i < |s.clients| && n < |backoffs| == LOCK_RETRY_COUNT && TriedAlone(s, t, i, backoffs, n)
    requires !t.clients[i].Holding? && OnlyTime(backoffs[n])
    ensures var tried := Do(t, Acquire(i));
            TriedAlone(s, if HasLock(tried, i) then tried else Awaited(tried, backoffs[n]), i, backoffs, n + 1)
  {
    var tried := Do(t, Acquire(i));
    if !HasLock(tried, i) {
      AwaitTime(tried, backoffs[n]);
    }
  }

  lemma {:induction false} TriesAlone(s: State, i: nat, backoffs: seq<seq<Label>>, n: nat)
    requires i < |s.clients| && s.clients[i] == Acquiring(1) && R.Current(s.lock, s.now) == s.lock
    requires n <= |backoffs| == LOCK_RETRY_COUNT && forall k :: 0 <= k < |backoffs| ==> OnlyTime(backoffs[k])
    ensures TriedAlone(s, Tried(s, i, backoffs, n), i, backoffs, n)
  {
    if n == 0 {
    } else {
      TriesAlone(s, i, backoffs, n - 1);
      var before := Tried(s, i, backoffs, n - 1);
      if !HasLock(before, i) {
        TryAlone(s, before, i, backoffs, n - 1);
      }
    }
  }

  lemma ReservesAlone(s: State, i: nat, script: Script)
    requires HasLock(s, i) && s.lock == R.Held(s.clients[i].token, s.clients[i].since + LOCK_TTL_MS) && Alone(script)
    ensures var t := Reserved(s, i, script);
            var (counter, remaining) := R.TakeOne(s.counter, INITIAL_STOCK);
            && |t.clients| == |s.clients| && t.lock.Free? && t.log == s.log && t.counter == counter
            && t.clients[i] == if remaining < 0 then Done(OutOfStock, |s.ops|) else Emitting(remaining, |s.ops|)
  {
    AwaitTime(s, script.decrement);
    AwaitTime(Do(Awaited(s, script.decrement), Eval(i)), script.release);
  }

  lemma AnnouncesAlone(s: State, i: nat, script: Script, emit: EmitResult, id: string)
    requires MustEmit(s, i) && s.lock.Free? && Alone(script)
    ensures var t := Announced(s, i, script, emit, id);
            var r := s.clients[i].remaining;
            && |t.clients| == |s.clients| && t.lock.Free?
            && t.log == s.log + (if emit.Lost? then [] else [ItemUsed(if r < 0 then 0 else r, id)])
            && t.counter == (if emit.Delivered? then s.counter else R.PutBack(s.counter))
            && t.clients[i] == Done(if emit.Delivered? then Success(r) else DeliveryFailed, s.clients[i].at)
  {
    AwaitTime(s, script.emit);
    AwaitTime(Do(Awaited(s, script.emit), Emit(i, emit, id)), script.rollback);
  }

  /** From the acquisition on: one item taken and sold, or put back. */
  lemma CompletesAlone(s: State, i: nat, script: Script, emit: EmitResult, id: string)
    requires HasLock(s, i) && s.lock == R.Held(s.clients[i].token, s.clients[i].since + LOCK_TTL_MS) && Alone(script)
    ensures var t := Completed(s, i, script, emit, id);
            && |t.clients| == |s.clients| && t.lock.Free? && t.clients[i].Done?
            && (t.counter, t.log, ResponseOf(t.clients[i])) == CallEffect(s.counter, s.log, emit, id)
  {
    ReservesAlone(s, i, script);
    var reserved := Reserved(s, i, script);
    if MustEmit(reserved, i) {
      AnnouncesAlone(reserved, i, script, emit, id);
      assert s.log + [] == s.log;
    }
  }

  /**
    A call that meets no other: turned away exactly when the lock it found outlives the back-offs before its last
    attempt; otherwise it leaves the lock free, even if its own expired meanwhile, and takes an item or puts it back.
   */
  lemma AloneCall(s: State, i: nat, script: Script, emit: EmitResult, id: string)
    requires ValidScript(script, i) && Alone(script)
    requires i < |s.clients| && s.clients[i] == Acquiring(1) && R.Current(s.lock, s.now) == s.lock
    ensures var t := Called(s, i, script, emit, id);
            && i < |t.clients|
            && (ResponseOf(t.clients[i]) == LockContention <==> Outlives(s, script.backoffs, LOCK_RETRY_COUNT))
            && if Outlives(s, script.backoffs, LOCK_RETRY_COUNT) then t.counter == s.counter && t.log == s.log
               else
                 && t.lock.Free?
                 && (t.counter, t.log, ResponseOf(t.clients[i])) == CallEffect(s.counter, s.log, emit, id)
  {
    TriesAlone(s, i, script.backoffs, LOCK_RETRY_COUNT);
    var tried := Tried(s, i, script.backoffs, LOCK_RETRY_COUNT);
    if HasLock(tried, i) {
      CompletesAlone(tried, i, script, emit, id);
    }
  }

  // -------------------------------------------------- who can be turned away

  predicate LockBounded(s: State) {
    s.lock.Held? ==> s.lock.expiry <= s.now + LOCK_TTL_MS
  }

  lemma {:induction false} RunKeepsLockBounded(labels: seq<Label>)
    ensures LockBounded(Exec(INIT, labels))
  {
    if labels == [] {
    } else {
      RunKeepsLockBounded(labels[..|labels| - 1]);
      StepKeepsLockBounded(Exec(INIT, labels[..|labels| - 1]), labels[|labels| - 1]);
    }
  }

  lemma StepKeepsLockBounded(s: State, l: Label)
    requires LockBounded(s)
    ensures LockBounded(Do(s, l))
  {
  }

  predicate NoAcquire(labels: seq<Label>) {
    forall k :: 0 <= k < |labels| ==> !labels[k].Acquire?
  }

  /** The lock is the one found at `s`, or nobody's, and at least `ms` have passed. */
  predicate SameOrFree(s: State, t: State, ms: int) {
    s.now + ms <= t.now && (t.lock == s.lock || t.lock.Free?)
  }

  lemma {:induction false} QuietKeepsLock(s: State, t: State, ms: int, labels: seq<Label>)
    requires SameOrFree(s, t, ms) && NoAcquire(labels)
    ensures SameOrFree(s, Exec(t, labels), ms + Elapsed(labels))
  {
    if labels == [] {
    } else {
      QuietKeepsLock(s, t, ms, labels[..|labels| - 1]);
    }
  }

  /** Total back-off after `n` failed attempts. */
  function Waited(n: nat): nat {
    if n == 0 then 0 else Waited(n - 1) + Delay(n)
  }

  /** A call that has failed `n` times met the lock of the beginning each time, still unexpired. */
  predicate StillRefused(s: State, t: State, i: nat, n: nat) {
    && i < |t.clients| && t.clients[i] == (if n < LOCK_RETRY_COUNT then Acquiring(n + 1) else Contended)
    && SameOrFree(s, t, Waited(n)) && R.Current(t.lock, t.now) == t.lock
    && (0 < n ==> s.lock.Held? && s.now + Waited(n - 1) < s.lock.expiry)
  }

  lemma RefusedAgain(s: State, t: State, i: nat, backoffs: seq<seq<Label>>, n: nat)
    requires n < |backoffs| == LOCK_RETRY_COUNT && ValidBackoffs(backoffs, i) && NoAcquire(backoffs[n])
    requires StillRefused(s, t, i, n) && !HasLock(Do(t, Acquire(i)), i)
    ensures StillRefused(s, Awaited(Do(t, Acquire(i)), backoffs[n]), i, n + 1)
  {
    var tried := Do(t, Acquire(i));
    QuietKeepsLock(s, tried, Waited(n), backoffs[n]);
    ElsewhereKeepsCall(tried, backoffs[n], i);
  }

  lemma {:induction false} FailedTries(s: State, i: nat, backoffs: seq<seq<Label>>, n: nat)
    requires i < |s.clients| && s.clients[i] == Acquiring(1) && R.Current(s.lock, s.now) == s.lock
    requires n <= |backoffs| == LOCK_RETRY_COUNT && ValidBackoffs(backoffs, i)
    requires forall k :: 0 <= k < |backoffs| ==> NoAcquire(backoffs[k])
    ensures var t := Tried(s, i, backoffs, n); HasLock(t, i) || StillRefused(s, t, i, n)
  {
    if n == 0 {
    } else {
      FailedTries(s, i, backoffs, n - 1);
      var before := Tried(s, i, backoffs, n - 1);
      if !HasLock(before, i) && !HasLock(Do(before, Acquire(i)), i) {
        RefusedAgain(s, before, i, backoffs, n - 1);
      }
    }
  }

  /**
    A key left behind by a crashed holder cannot starve anyone: at any moment of any run, a call that begins is turned
    away only if some other call tries for the lock during its back-offs.  The key found lives for 300 ms at most, and
    the fourth attempt is due after 350.
   */
  lemma OnlyContendersStarve(labels: seq<Label>, backoffs: seq<seq<Label>>)
    requires ValidBackoffs(backoffs, |Exec(INIT, labels).clients|)
    requires forall k :: 0 <= k < |backoffs| ==> NoAcquire(backoffs[k])
    ensures var s := Awaited(Exec(INIT, labels), []);
            HasLock(Tried(Do(s, Start), |s.clients|, backoffs, LOCK_RETRY_COUNT), |s.clients|)
  {
    RunKeepsLockBounded(labels);
    var s := Do(Awaited(Exec(INIT, labels), []), Start);
    var i := |s.clients| - 1;
    FailedTries(s, i, backoffs, 4);
    assert Waited(3) == Delay(1) + Delay(2) + Delay(3) == 350;
    TriesStop(s, i, backoffs, 4, LOCK_RETRY_COUNT);
  }

  class ProductController {
    const redis: R.RedisService
    /** Calls of all replicas, the topic, and the history; its clock, lock and counter are those of Redis. */
    var world: State

    constructor (redis: R.RedisService)
      ensures this.redis == redis && world == INIT
    {
      this.redis := redis;
      world := INIT;
    }

    function StockCounter(): R.Counter
      reads this, redis
    {
      redis.CounterAt(INVENTORY_KEY)
    }

    function StockLock(): R.Lock
      reads this, redis
    {
      redis.LockAt(LOCK_KEY)
    }

    function View(): State
      reads this, redis
    {
      world.(now := redis.clock, lock := StockLock(), counter := StockCounter())
    }

    /** What happens elsewhere during an await. */
    method Interfere(labels: seq<Label>)
      modifies this, redis`clock, redis`locks, redis`counters
      ensures View() == Awaited(old(View()), labels)
    {
      var s := Awaited(View(), labels);
      world, redis.clock := s, s.now;
      redis.locks := if s.lock.Held? then redis.locks[LOCK_KEY := s.lock] else redis.locks - {LOCK_KEY};
      redis.counters := if s.counter.Some? then redis.counters[INVENTORY_KEY := s.counter.value]
                        else redis.counters - {INVENTORY_KEY};
    }

    /** The call's own progress, as others may see it in the history. */
    method Advance(i: nat, c: Client)
      requires i < |world.clients|
      modifies this
      ensures world == old(world).(clients := old(world.clients)[i := c])
    {
      world := world.(clients := world.clients[i := c]);
    }

    /** `await this.redisService.acquireLock(...)`, and what the loop makes of it. */
    method TryLock(i: nat) returns (token: Option<R.Token>)
      requires i < |world.clients| && world.clients[i].Acquiring?
      modifies this, redis`locks
      ensures View() == Do(old(View()), Acquire(i)) && i < |world.clients|
      ensures if token.Some? then world.clients[i].Holding? && world.clients[i].token == token.value
              else var n := old(world.clients[i].attempt);
                   world.clients[i] == if n < LOCK_RETRY_COUNT then Acquiring(n + 1) else Contended
    {
      var attempt := world.clients[i].attempt;
      token := redis.AcquireLock(LOCK_KEY, LOCK_TTL_MS, world.nextToken);
      world := world.(nextToken := world.nextToken + 1);
      Advance(i, if token.Some? then Holding(token.value, redis.clock)
                 else if attempt < LOCK_RETRY_COUNT then Acquiring(attempt + 1)
                 else Contended);
    }

    /** One pass of the retry loop. */
    method AttemptLock(i: nat, backoff: seq<Label>) returns (token: Option<R.Token>)
      requires i < |world.clients| && world.clients[i].Acquiring? && Elsewhere(backoff, i)
      modifies this, redis`clock, redis`locks, redis`counters
      ensures View() == Attempted(old(View()), i, backoff) && i < |world.clients|
      ensures if token.Some? then world.clients[i].Holding? && world.clients[i].token == token.value
              else var n := old(world.clients[i].attempt);
                   world.clients[i] == if n < LOCK_RETRY_COUNT then Acquiring(n + 1) else Contended
    {
      token := TryLock(i);
      if token.None? {
        ElsewhereKeepsCall(View(), backoff, i);
        Interfere(backoff);
      }
    }

    /** The retry loop: up to five attempts with doubling back-off. */
    method LockWithRetries(i: nat, backoffs: seq<seq<Label>>) returns (token: Option<R.Token>)
      requires i < |world.clients| && world.clients[i] == Acquiring(1) && ValidBackoffs(backoffs, i)
      modifies this, redis`clock, redis`locks, redis`counters
      ensures View() == Tried(old(View()), i, backoffs, LOCK_RETRY_COUNT)
      ensures i < |world.clients|
      ensures if token.Some? then world.clients[i].Holding? && world.clients[i].token == token.value
              else world.clients[i] == Contended
    {
      token := None;
      for attempt := 1 to LOCK_RETRY_COUNT + 1
        invariant token.None? && i < |world.clients|
        invariant world.clients[i] == if attempt <= LOCK_RETRY_COUNT then Acquiring(attempt) else Contended
        invariant View() == Tried(old(View()), i, backoffs, attempt - 1)
      {
        token := AttemptLock(i, backoffs[attempt - 1]);
        if token.Some? {
          TriesStop(old(View()), i, backoffs, attempt, LOCK_RETRY_COUNT);
          return;
        }
      }
    }

    method Decrement(i: nat) returns (remaining: int)
      requires i < |world.clients| && world.clients[i].Holding?
      modifies this, redis`counters
      ensures View() == Do(old(View()), Eval(i)) && i < |world.clients|
      ensures world.clients[i].Leaving? && world.clients[i].remaining == remaining
      ensures world.clients[i].token == old(world.clients[i].token)
    {
      remaining := redis.CheckAndDecrement(INVENTORY_KEY, INITIAL_STOCK);
      var c := world.clients[i];
      Advance(i, Leaving(c.token, c.since, remaining, |world.ops|));
      world := world.(ops := world.ops + [Take(i, remaining)]);
    }

    method Leave(i: nat, token: R.Token, remaining: int)
      requires i < |world.clients| && world.clients[i].Leaving?
      requires world.clients[i].token == token && world.clients[i].remaining == remaining
      modifies this, redis`locks
      ensures View() == Do(old(View()), Release(i)) && i < |world.clients|
      ensures if remaining < 0 then world.clients[i].Done? && world.clients[i].outcome == OutOfStock
              else world.clients[i].Emitting? && world.clients[i].remaining == remaining
    {
      redis.ReleaseLock(LOCK_KEY, token);
      var at := world.clients[i].at;
      Advance(i, if remaining < 0 then Done(OutOfStock, at) else Emitting(remaining, at));
    }

    /** The critical section: the decrement script, and the release in the `finally` block. */
    method Reserve(i: nat, token: R.Token, script: Script) returns (remaining: int)
      requires i < |world.clients| && world.clients[i].Holding? && world.clients[i].token == token
      requires ValidScript(script, i)
      modifies this, redis`clock, redis`locks, redis`counters
      ensures View() == Reserved(old(View()), i, script)
      ensures i < |world.clients|
      ensures if remaining < 0 then world.clients[i].Done? && world.clients[i].outcome == OutOfStock
              else world.clients[i].Emitting? && world.clients[i].remaining == remaining
    {
      ElsewhereKeepsCall(View(), script.decrement, i);
      Interfere(script.decrement);
      remaining := Decrement(i);
      ElsewhereKeepsCall(View(), script.release, i);
      Interfere(script.release);
      Leave(i, token, remaining);
    }

    method EmitEvent(i: nat, remaining: nat, emit: EmitResult, correlationId: string)
      requires i < |world.clients| && world.clients[i].Emitting? && world.clients[i].remaining == remaining
      modifies this
      ensures View() == Do(old(View()), Emit(i, emit, correlationId)) && i < |world.clients|
      ensures var at := old(world.clients[i].at);
              world.clients[i] == if emit.Delivered? then Done(Success(remaining), at) else Undoing(remaining, at)
      ensures !emit.Lost? ==>
                world.log == old(world.log) + [Event(remaining, true, Message(remaining), Some(correlationId))]
    {
      var at := world.clients[i].at;
      if !emit.Lost? {
        world := world.(log := world.log + [Event(remaining, true, Message(remaining), Some(correlationId))],
                        sellers := world.sellers + [i]);
      }
      if emit.DeliveredButFailed? {
        world := world.(phantoms := world.phantoms + 1);
      }
      Advance(i, if emit.Delivered? then Done(Success(remaining), at) else Undoing(remaining, at));
    }

    method Undo(i: nat)
      requires i < |world.clients| && world.clients[i].Undoing?
      modifies this, redis`counters
      ensures View() == Do(old(View()), Rollback(i))
      ensures i < |world.clients| && world.clients[i] == Done(DeliveryFailed, old(world.clients[i].at))
    {
      var at := world.clients[i].at;
      redis.Increment(INVENTORY_KEY);
      world := world.(ops := world.ops + [Return(i, at)]);
      Advance(i, Done(DeliveryFailed, at));
    }

    /** The emit, and the INCR when it throws. */
    method Announce(i: nat, remaining: nat, script: Script, emit: EmitResult, correlationId: string)
      returns (response: Response)
      requires i < |world.clients| && world.clients[i].Emitting? && world.clients[i].remaining == remaining
      requires ValidScript(script, i)
      modifies this, redis`clock, redis`locks, redis`counters
      ensures View() == Announced(old(View()), i, script, emit, correlationId)
      ensures i < |world.clients| && world.clients[i].Done? && response == ResponseOf(world.clients[i])
      ensures Truthful(response, world.log, correlationId)
    {
      MessageTells(remaining);
      ElsewhereKeepsCall(View(), script.emit, i);
      Interfere(script.emit);
      EmitEvent(i, remaining, emit, correlationId);
      if emit.Delivered? {
        return Reply(true, remaining, Message(remaining));
      }
      ElsewhereKeepsCall(View(), script.rollback, i);
      Interfere(script.rollback);
      Undo(i);
      response := DeliveryFailure;
    }

    /** The endpoint in terms of the step system. */
    method Serve(script: Script, emit: EmitResult, correlationId: string) returns (response: Response)
      requires ValidScript(script, |world.clients|)
      modifies this, redis`clock, redis`locks, redis`counters
      ensures View() == Called(Do(old(View()), Start), old(|world.clients|), script, emit, correlationId)
      ensures old(|world.clients|) < |world.clients|
      ensures var c := world.clients[old(|world.clients|)]; (c == Contended || c.Done?) && response == ResponseOf(c)
      ensures Truthful(response, world.log, correlationId)
    {
      var i := |world.clients|;
      world := world.(clients := world.clients + [Acquiring(1)]);
      var token := LockWithRetries(i, script.backoffs);
      if token.None? {
        return LockContention;
      }
      var remaining := Reserve(i, token.value, script);
      if remaining < 0 {
        return Reply(false, 0, "no inventory available");
      }
      response := Announce(i, remaining, script, emit, correlationId);
    }

    /** Consume one item: the whole endpoint, with the outcome of the emit as a parameter. */
    method UseItem(script: Script, emit: EmitResult, correlationId: string) returns (response: Response)
      requires ValidScript(script, |world.clients|)
      modifies this, redis`clock, redis`locks, redis`counters
      ensures View() == Called(Do(old(View()), Start), old(|world.clients|), script, emit, correlationId)
      ensures old(|world.clients|) < |world.clients|
      ensures var c := world.clients[old(|world.clients|)]; (c == Contended || c.Done?) && response == ResponseOf(c)
      // whatever others do: the reply and the event tell the truth about what is left
      ensures Truthful(response, world.log, correlationId)
      // without other calls: 503 exactly when the lock outlives the back-offs before the fifth attempt
      ensures Alone(script) ==>
                (response == LockContention <==>
                 old(StockLock().Held? && redis.clock + FirstFour(script.backoffs) < StockLock().expiry))
      ensures Alone(script) && response == LockContention ==>
                StockCounter() == old(StockCounter()) && world.log == old(world.log)
      // otherwise the lock is free again, and the call took one item and sold it, or put it back
      ensures Alone(script) && response != LockContention ==>
                && StockLock() == R.Free && old(world.log) <= world.log
                && Served(if old(StockCounter().Some?) then old(StockCounter().value) else 1000,
                          emit, response, StockCounter(), |world.log| - old(|world.log|))
    {
      ghost var before := View();
      ghost var i := |world.clients|;
      response := Serve(script, emit, correlationId);
      if Alone(script) {
        AloneCall(Do(before, Start), i, script, emit, correlationId);
        EffectServes(before.counter, before.log, emit, correlationId);
        SleptFour(script.backoffs);
      }
    }

    method GetInventory() returns (remaining: int)
      ensures remaining == Stock(View())
      ensures remaining == if StockCounter().Some? then StockCounter().value else 1000
    {
      remaining := if INVENTORY_KEY in redis.counters then redis.counters[INVENTORY_KEY] else INITIAL_STOCK;
    }

    method ResetInventory() returns (remaining: int)
      modifies this, redis`counters
      ensures View() == Do(old(View()), ResetStock)
      ensures remaining == 1000 && StockCounter() == Some(1000)
    {
      var before := if INVENTORY_KEY in redis.counters then redis.counters[INVENTORY_KEY] else INITIAL_STOCK;
      redis.SetCounter(INVENTORY_KEY, INITIAL_STOCK);
      world := world.(ops := world.ops + [Reset],
                      restocked := world.restocked + INITIAL_STOCK - before,
                      inFlightAtReset := Count(world.clients, InFlight));
      remaining := INITIAL_STOCK;
    }
  }
}
