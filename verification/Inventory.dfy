/**
  Any number of concurrent `useItem` calls over one shared Redis (src/product/product.controller.ts:44-99).

  Each call is a program counter; each label below is one atomic step: a Redis command or script, the
  outcome of an emit, the passing of time, the expiry of the lock key, or an administrator's reset.
  A run is any sequence of labels; a label that is not enabled changes nothing.
 */
module Inventory {
  import opened Common
  import opened RedisService

  const INITIAL_STOCK: int := 1000
  const LOCK_TTL_MS: int := 300
  const LOCK_RETRY_COUNT: nat := 5

  function Decimal(n: nat): string {
    if n < 10 then ["0123456789"[n]] else Decimal(n / 10) + ["0123456789"[n % 10]]
  }

  function Message(remaining: nat): string {
    if remaining == 0 then "Last item used!" else "Item used. " + Decimal(remaining) + " left."
  }

  function ItemUsed(remaining: nat, correlationId: string): Event {
    Event(remaining, true, Message(remaining), Some(correlationId))
  }

  datatype Outcome = OutOfStock | Success(remaining: int) | DeliveryFailed

  /** Where a call stands; `at` is the position of its decrement in the history of counter operations. */
  datatype Client =
    | Acquiring(attempt: nat)
    | Contended                                                     // 503 after the last attempt
    | Holding(token: Token, since: int)
    | Leaving(token: Token, since: int, remaining: int, at: nat)    // decremented, lock not yet released
    | Emitting(remaining: int, at: nat)
    | Undoing(remaining: int, at: nat)                              // emit failed, INCR not yet run
    | Done(outcome: Outcome, at: nat)

  datatype EmitResult = Delivered | Lost | DeliveredButFailed

  /** The operations of a single abstract counter. */
  datatype Op =
    | Take(client: nat, result: int)
    | Return(client: nat, at: nat)     // undoes the take at position `at`
    | Reset

  datatype State = State(
    now: int, lock: Lock, counter: Counter, nextToken: Token, clients: seq<Client>,
    log: seq<Event>,            // the topic inventory.item-used
    sellers: seq<nat>,          // the call behind each event
    ops: seq<Op>,               // history of the steps that touched the counter
    phantoms: nat,              // emits reported as failed although delivered
    restocked: int,             // items added by resets
    inFlightAtReset: nat)       // calls in flight when the last reset ran

  const INIT := State(0, Free, None, 0, [], [], [], [], 0, 0, 0)

  datatype Label =
    | Start
    | Acquire(client: nat)
    | Pass(ms: nat)
    | Expire
    | Eval(client: nat)
    | Release(client: nat)
    | Emit(client: nat, result: EmitResult, correlationId: string)
    | Rollback(client: nat)
    | ResetStock

  function Stock(s: State): int {
    Reading(s.counter, INITIAL_STOCK)
  }

  /** Its decrement is neither sold nor undone yet. */
  predicate InFlight(c: Client) {
    (c.Leaving? && 0 <= c.remaining) || c.Emitting? || c.Undoing?
  }

  // ------------------------------------------------------------------ steps

  function DoAcquire(s: State, i: nat): State
    requires i < |s.clients| && s.clients[i].Acquiring?
  {
    var attempt := s.clients[i].attempt;
    var c := if s.lock.Free? then Holding(s.nextToken, s.now)
             else if attempt < LOCK_RETRY_COUNT then Acquiring(attempt + 1)
             else Contended;
    s.(lock := SetIfAbsent(s.lock, s.nextToken, s.now + LOCK_TTL_MS),
       nextToken := s.nextToken + 1,
       clients := s.clients[i := c])
  }

  function DoEval(s: State, i: nat): State
    requires i < |s.clients| && s.clients[i].Holding?
  {
    var (counter, remaining) := TakeOne(s.counter, INITIAL_STOCK);
    s.(counter := counter,
       clients := s.clients[i := Leaving(s.clients[i].token, s.clients[i].since, remaining, |s.ops|)],
       ops := s.ops + [Take(i, remaining)])
  }

  function DoRelease(s: State, i: nat): State
    requires i < |s.clients| && s.clients[i].Leaving?
  {
    var c := s.clients[i];
    s.(lock := DeleteIfOwner(s.lock, c.token),
       clients := s.clients[i := if c.remaining < 0 then Done(OutOfStock, c.at) else Emitting(c.remaining, c.at)])
  }

  function DoEmit(s: State, i: nat, result: EmitResult, correlationId: string): State
    requires i < |s.clients| && s.clients[i].Emitting?
  {
    var c := s.clients[i];
    var event := ItemUsed(if c.remaining < 0 then 0 else c.remaining, correlationId);
    match result
    case Delivered =>
      s.(log := s.log + [event], sellers := s.sellers + [i],
         clients := s.clients[i := Done(Success(c.remaining), c.at)])
    case Lost =>
      s.(clients := s.clients[i := Undoing(c.remaining, c.at)])
    case DeliveredButFailed =>
      s.(log := s.log + [event], sellers := s.sellers + [i], clients := s.clients[i := Undoing(c.remaining, c.at)],
         phantoms := s.phantoms + 1)
  }

  function DoRollback(s: State, i: nat): State
    requires i < |s.clients| && s.clients[i].Undoing?
  {
    s.(counter := PutBack(s.counter),
       clients := s.clients[i := Done(DeliveryFailed, s.clients[i].at)],
       ops := s.ops + [Return(i, s.clients[i].at)])
  }

  function DoReset(s: State): State {
    s.(counter := Some(INITIAL_STOCK),
       ops := s.ops + [Reset],
       restocked := s.restocked + INITIAL_STOCK - Stock(s),
       inFlightAtReset := Count(s.clients, InFlight))
  }

  predicate Enabled(s: State, l: Label) {
    match l
    case Start => true
    case Acquire(i) => i < |s.clients| && s.clients[i].Acquiring?
    case Pass(_) => true
    case Expire => s.lock.Held? && s.lock.expiry <= s.now
    case Eval(i) => i < |s.clients| && s.clients[i].Holding?
    case Release(i) => i < |s.clients| && s.clients[i].Leaving?
    case Emit(i, _, _) => i < |s.clients| && s.clients[i].Emitting?
    case Rollback(i) => i < |s.clients| && s.clients[i].Undoing?
    case ResetStock => true
  }

  function Do(s: State, l: Label): State {
    if !Enabled(s, l) then s else
    match l
    case Start => s.(clients := s.clients + [Acquiring(1)])
    case Acquire(i) => DoAcquire(s, i)
    case Pass(ms) => s.(now := s.now + ms)
    case Expire => s.(lock := Free)
    case Eval(i) => DoEval(s, i)
    case Release(i) => DoRelease(s, i)
    case Emit(i, result, correlationId) => DoEmit(s, i, result, correlationId)
    case Rollback(i) => DoRollback(s, i)
    case ResetStock => DoReset(s)
  }

  function Exec(s: State, labels: seq<Label>): State {
    if labels == [] then s
    else Do(Exec(s, labels[..|labels| - 1]), labels[|labels| - 1])
  }

  lemma ExecStep(s: State, labels: seq<Label>, l: Label)
    ensures Exec(s, labels + [l]) == Do(Exec(s, labels), l)
  {
    assert (labels + [l])[..|labels|] == labels;
  }

  lemma {:induction false} ExecThen(s: State, before: seq<Label>, after: seq<Label>)
    ensures Exec(s, before + after) == Exec(Exec(s, before), after)
  {
    if after == [] {
      assert before + after == before;
    } else {
      var n := |after| - 1;
      assert (before + after)[..|before| + n] == before + after[..n];
      ExecThen(s, before, after[..n]);
    }
  }

  // ------------------------------------------------------- mutual exclusion

  predicate InCritical(c: Client) {
    c.Holding? || c.Leaving?
  }

  /** Between acquire and release, with less than the TTL elapsed since its SET. */
  predicate HoldsInTime(s: State, i: nat)
    requires i < |s.clients|
  {
    InCritical(s.clients[i]) && s.now < s.clients[i].since + LOCK_TTL_MS
  }

  ghost predicate LockInv(s: State) {
    && (s.lock.Held? ==> s.lock.token < s.nextToken)
    && (forall i :: 0 <= i < |s.clients| && InCritical(s.clients[i]) ==> s.clients[i].token < s.nextToken)
    && (forall i, j :: 0 <= i < j < |s.clients| && InCritical(s.clients[i]) && InCritical(s.clients[j]) ==>
          s.clients[i].token != s.clients[j].token)
    && (forall i :: 0 <= i < |s.clients| && HoldsInTime(s, i) ==>
          s.lock == Held(s.clients[i].token, s.clients[i].since + LOCK_TTL_MS))
  }

  lemma StepKeepsLockInv(s: State, l: Label)
    requires LockInv(s)
    ensures LockInv(Do(s, l))
  {
    if Enabled(s, l) {
      match l
      case Acquire(i) => AcquireKeepsLock(s, i);
      case Release(i) => ReleaseKeepsLock(s, i);
      case Eval(i) => EvalKeepsLock(s, i);
      case Emit(i, result, id) => EmitKeepsLock(s, i, result, id);
      case Rollback(i) => RollbackKeepsLock(s, i);
      case Start => StartKeepsLock(s);
      case Pass(ms) =>
      case Expire => ExpireKeepsLock(s);
      case ResetStock =>
    }
  }

  lemma StartKeepsLock(s: State)
    requires LockInv(s)
    ensures LockInv(s.(clients := s.clients + [Acquiring(1)]))
  {
  }

  lemma ExpireKeepsLock(s: State)
    requires LockInv(s) && Enabled(s, Expire)
    ensures LockInv(s.(lock := Free))
  {
  }

  /** A step of client `i` that leaves lock, clock and tokens alone. */
  lemma OutsideLockStep(s: State, t: State, i: nat)
    requires LockInv(s) && i < |s.clients| && i < |t.clients|
    requires t.lock == s.lock && t.now == s.now && t.nextToken == s.nextToken
    requires t.clients == s.clients[i := t.clients[i]]
    requires InCritical(t.clients[i]) ==>
               && InCritical(s.clients[i])
               && t.clients[i].token == s.clients[i].token
               && t.clients[i].since == s.clients[i].since
    ensures LockInv(t)
  {
  }

  lemma EvalKeepsLock(s: State, i: nat)
    requires LockInv(s) && i < |s.clients| && s.clients[i].Holding?
    ensures LockInv(DoEval(s, i))
  {
    OutsideLockStep(s, DoEval(s, i), i);
  }

  lemma EmitKeepsLock(s: State, i: nat, result: EmitResult, id: string)
    requires LockInv(s) && i < |s.clients| && s.clients[i].Emitting?
    ensures LockInv(DoEmit(s, i, result, id))
  {
    OutsideLockStep(s, DoEmit(s, i, result, id), i);
  }

  lemma RollbackKeepsLock(s: State, i: nat)
    requires LockInv(s) && i < |s.clients| && s.clients[i].Undoing?
    ensures LockInv(DoRollback(s, i))
  {
    OutsideLockStep(s, DoRollback(s, i), i);
  }

  lemma AcquireKeepsLock(s: State, i: nat)
    requires LockInv(s) && i < |s.clients| && s.clients[i].Acquiring?
    ensures LockInv(DoAcquire(s, i))
  {
  }

  lemma ReleaseKeepsLock(s: State, i: nat)
    requires LockInv(s) && i < |s.clients| && s.clients[i].Leaving?
    ensures LockInv(DoRelease(s, i))
  {
  }

  lemma {:induction false} RunKeepsLockInv(labels: seq<Label>)
    ensures LockInv(Exec(INIT, labels))
  {
    if labels == [] {
    } else {
      RunKeepsLockInv(labels[..|labels| - 1]);
      StepKeepsLockInv(Exec(INIT, labels[..|labels| - 1]), labels[|labels| - 1]);
    }
  }

  /**
    In every reachable state at most one call is inside the critical section with its TTL running; the key
    holds its token, and no step but its own release (not a release by an expired owner either) touches the key.
  */
  lemma MutualExclusion(labels: seq<Label>, i: nat, l: Label)
    requires i < |Exec(INIT, labels).clients| && HoldsInTime(Exec(INIT, labels), i)
    ensures var s := Exec(INIT, labels);
            && (forall j :: 0 <= j < |s.clients| && HoldsInTime(s, j) ==> j == i)
            && s.lock == Held(s.clients[i].token, s.clients[i].since + LOCK_TTL_MS)
            && (l != Release(i) ==> Do(s, l).lock == s.lock)
            && (s.clients[i].Leaving? ==> Do(s, Release(i)).lock == Free)
  {
    RunKeepsLockInv(labels);
  }

  /** How often call `i` has tried for the lock in this run. */
  function Tries(labels: seq<Label>, i: nat): nat {
    if labels == [] then 0 else
    var before := labels[..|labels| - 1];
    Tries(before, i) + if labels[|labels| - 1] == Acquire(i) && Enabled(Exec(INIT, before), Acquire(i)) then 1 else 0
  }

  predicate TriesMatch(s: State, i: nat, tries: nat) {
    if |s.clients| <= i then tries == 0 else
    match s.clients[i]
    case Acquiring(attempt) => tries == attempt - 1 && attempt <= LOCK_RETRY_COUNT
    case Contended => tries == LOCK_RETRY_COUNT
    case _ => 1 <= tries <= LOCK_RETRY_COUNT
  }

  /** A call is turned away only after its fifth try; one that went on has needed between one and five. */
  lemma {:induction false} ContendedAfterFiveTries(labels: seq<Label>, i: nat)
    ensures TriesMatch(Exec(INIT, labels), i, Tries(labels, i))
  {
    if labels == [] {
    } else {
      var before := labels[..|labels| - 1];
      ContendedAfterFiveTries(before, i);
      StepKeepsTries(Exec(INIT, before), labels[|labels| - 1], i, Tries(before, i));
    }
  }

  lemma StepKeepsTries(s: State, l: Label, i: nat, tries: nat)
    requires TriesMatch(s, i, tries)
    ensures TriesMatch(Do(s, l), i, tries + if l == Acquire(i) && Enabled(s, Acquire(i)) then 1 else 0)
  {
  }

  // ------------------------------------------- refinement to an atomic counter

  /** The abstract counter after a history of operations. */
  function Replay(ops: seq<Op>): int {
    if ops == [] then INITIAL_STOCK else
    var n := Replay(ops[..|ops| - 1]);
    match ops[|ops| - 1]
    case Take(_, _) => if 0 < n then n - 1 else n
    case Return(_, _) => n + 1
    case Reset => INITIAL_STOCK
  }

  /** Every take in the history returned what the abstract counter returns there. */
  predicate Legal(ops: seq<Op>) {
    ops == [] ||
    var before := ops[..|ops| - 1];
    var op := ops[|ops| - 1];
    && Legal(before)
    && (op.Take? ==> op.result == if 0 < Replay(before) then Replay(before) - 1 else -1)
  }

  /** The reply of the decrement, as the call still knows it. */
  predicate KnowsReply(c: Client, reply: int) {
    match c
    case Leaving(_, _, remaining, _) => remaining == reply
    case Emitting(remaining, _) => remaining == reply && 0 <= reply
    case Undoing(remaining, _) => remaining == reply && 0 <= reply
    case Done(OutOfStock, _) => reply < 0
    case Done(Success(remaining), _) => remaining == reply && 0 <= reply
    case Done(DeliveryFailed, _) => 0 <= reply
    case _ => true
  }

  predicate HasTaken(c: Client) {
    c.Leaving? || c.Emitting? || c.Undoing? || c.Done?
  }

  /** Client `i` took at `ops[c.at]`, with the reply it acts on. */
  predicate OwnsTake(ops: seq<Op>, i: nat, c: Client) {
    HasTaken(c) ==>
      c.at < |ops| && ops[c.at].Take? && ops[c.at].client == i && KnowsReply(c, ops[c.at].result)
  }

  /** The operation at `j` belongs to a call that is past it. */
  predicate OwnedBy(clients: seq<Client>, j: nat, op: Op) {
    match op
    case Take(i, _) => i < |clients| && HasTaken(clients[i]) && clients[i].at == j
    case Return(i, at) => i < |clients| && clients[i] == Done(DeliveryFailed, at) && at < j
    case Reset => true
  }

  ghost predicate Undone(ops: seq<Op>, i: nat, c: Client) {
    c.Done? && c.outcome.DeliveryFailed? ==> exists j :: c.at < j < |ops| && ops[j] == Return(i, c.at)
  }

  ghost predicate CounterInv(s: State) {
    && Legal(s.ops)
    && Replay(s.ops) == Stock(s)
    && 0 <= Stock(s)
    && (s.ops != [] ==> s.counter.Some?)
  }

  /** Calls and history agree: one take for each call past its decrement, one return for each call that undid it. */
  ghost predicate Matched(clients: seq<Client>, ops: seq<Op>) {
    && (forall i :: 0 <= i < |clients| ==> OwnsTake(ops, i, clients[i]))
    && (forall i :: 0 <= i < |clients| ==> Undone(ops, i, clients[i]))
    && (forall j :: 0 <= j < |ops| ==> OwnedBy(clients, j, ops[j]))
    && (forall j, k :: 0 <= j < k < |ops| && ops[j].Return? && ops[k].Return? ==> ops[j].client != ops[k].client)
  }

  ghost predicate CallInv(s: State) {
    Matched(s.clients, s.ops)
  }

  /** Client `i` moves to `c` without an operation on the counter. */
  lemma MoveKeepsMatched(clients: seq<Client>, ops: seq<Op>, i: nat, c: Client)
    requires Matched(clients, ops) && i < |clients|
    requires !clients[i].Done? && (HasTaken(clients[i]) ==> HasTaken(c) && c.at == clients[i].at)
    requires OwnsTake(ops, i, c) && Undone(ops, i, c)
    ensures Matched(clients[i := c], ops)
  {
  }

  /** Client `i` moves to `c` by the operation `op`. */
  lemma OperationKeepsMatched(clients: seq<Client>, ops: seq<Op>, i: nat, c: Client, op: Op)
    requires Matched(clients, ops) && i < |clients|
    requires !clients[i].Done? && (HasTaken(clients[i]) ==> HasTaken(c) && c.at == clients[i].at)
    requires OwnsTake(ops + [op], i, c) && Undone(ops + [op], i, c)
    requires OwnedBy(clients[i := c], |ops|, op)
    requires !op.Reset? && op.client == i
    ensures Matched(clients[i := c], ops + [op])
  {
    forall k | 0 <= k < |clients| && k != i
      ensures OwnsTake(ops + [op], k, clients[k]) && Undone(ops + [op], k, clients[k])
    {
      KeepsHistory(ops, op, k, clients[k]);
    }
    forall j | 0 <= j < |ops|
      ensures OwnedBy(clients[i := c], j, ops[j])
    {
      assert OwnedBy(clients, j, ops[j]);
    }
  }

  /** A longer history keeps what is known about a call. */
  lemma KeepsHistory(ops: seq<Op>, op: Op, k: nat, c: Client)
    requires OwnsTake(ops, k, c) && Undone(ops, k, c)
    ensures OwnsTake(ops + [op], k, c) && Undone(ops + [op], k, c)
  {
    if c.Done? && c.outcome.DeliveryFailed? {
      var j :| c.at < j < |ops| && ops[j] == Return(k, c.at);
      assert (ops + [op])[j] == Return(k, c.at);
    }
  }

  lemma StepKeepsCounterInv(s: State, l: Label)
    requires CounterInv(s) && CallInv(s)
    ensures CounterInv(Do(s, l))
  {
    if Enabled(s, l) {
      match l
      case Eval(i) => EvalKeepsCounter(s, i);
      case Rollback(i) => RollbackKeepsCounter(s, i);
      case ResetStock => ReplayStep(s.ops, Reset);
      case _ =>
    }
  }

  lemma EvalKeepsCounter(s: State, i: nat)
    requires CounterInv(s) && i < |s.clients| && s.clients[i].Holding?
    ensures CounterInv(DoEval(s, i))
  {
    ReplayStep(s.ops, Take(i, TakeOne(s.counter, INITIAL_STOCK).1));
  }

  lemma RollbackKeepsCounter(s: State, i: nat)
    requires CounterInv(s) && CallInv(s) && i < |s.clients| && s.clients[i].Undoing?
    ensures CounterInv(DoRollback(s, i))
  {
    assert OwnsTake(s.ops, i, s.clients[i]);
    ReplayStep(s.ops, Return(i, s.clients[i].at));
  }

  lemma ReplayStep(ops: seq<Op>, op: Op)
    ensures var n := Replay(ops);
            && Replay(ops + [op]) == (match op
                                      case Take(_, _) => if 0 < n then n - 1 else n
                                      case Return(_, _) => n + 1
                                      case Reset => INITIAL_STOCK)
            && (Legal(ops + [op]) <==> Legal(ops) && (op.Take? ==> op.result == if 0 < n then n - 1 else -1))
  {
    assert (ops + [op])[..|ops|] == ops;
  }

  lemma StepKeepsCallInv(s: State, l: Label)
    requires CounterInv(s) && CallInv(s)
    ensures CallInv(Do(s, l))
  {
    if Enabled(s, l) {
      match l
      case Start => StartKeepsMatched(s.clients, s.ops);
      case Eval(i) =>
        OperationKeepsMatched(s.clients, s.ops, i, DoEval(s, i).clients[i], DoEval(s, i).ops[|s.ops|]);
      case Rollback(i) =>
        var c := s.clients[i];
        assert OwnsTake(s.ops, i, c);
        assert (s.ops + [Return(i, c.at)])[|s.ops|] == Return(i, c.at);
        OperationKeepsMatched(s.clients, s.ops, i, Done(DeliveryFailed, c.at), Return(i, c.at));
      case ResetStock => ResetKeepsMatched(s.clients, s.ops);
      case Pass(_) =>
      case Expire =>
      case _ =>
        assert OwnsTake(s.ops, l.client, s.clients[l.client]);
        var c := Do(s, l).clients[l.client];
        assert Do(s, l).clients == s.clients[l.client := c];
        MoveKeepsMatched(s.clients, s.ops, l.client, c);
    }
  }

  lemma StartKeepsMatched(clients: seq<Client>, ops: seq<Op>)
    requires Matched(clients, ops)
    ensures Matched(clients + [Acquiring(1)], ops)
  {
    forall j | 0 <= j < |ops|
      ensures OwnedBy(clients + [Acquiring(1)], j, ops[j])
    {
      assert OwnedBy(clients, j, ops[j]);
    }
  }

  lemma ResetKeepsMatched(clients: seq<Client>, ops: seq<Op>)
    requires Matched(clients, ops)
    ensures Matched(clients, ops + [Reset])
  {
    forall i | 0 <= i < |clients|
      ensures OwnsTake(ops + [Reset], i, clients[i]) && Undone(ops + [Reset], i, clients[i])
    {
      KeepsHistory(ops, Reset, i, clients[i]);
    }
    forall j | 0 <= j < |ops|
      ensures OwnedBy(clients, j, (ops + [Reset])[j])
    {
      assert OwnedBy(clients, j, ops[j]);
    }
  }

  lemma {:induction false} RunKeepsCallInv(labels: seq<Label>)
    ensures CounterInv(Exec(INIT, labels)) && CallInv(Exec(INIT, labels))
  {
    if labels == [] {
    } else {
      var s := Exec(INIT, labels[..|labels| - 1]);
      RunKeepsCallInv(labels[..|labels| - 1]);
      StepKeepsCounterInv(s, labels[|labels| - 1]);
      StepKeepsCallInv(s, labels[|labels| - 1]);
    }
  }

  /**
    For every interleaving, lock expiry inside the critical section included, the calls behave as operations
    of one atomic counter: the history is legal, its value is the stock, the stock is never negative, and a
    finished call reports the reply of its own single take; only a call whose delivery failed has put its item
    back, once.
   */
  lemma CallsRefineAtomicCounter(labels: seq<Label>)
    ensures var s := Exec(INIT, labels);
            && Legal(s.ops) && Replay(s.ops) == Stock(s) && 0 <= Stock(s)
            && (forall i :: 0 <= i < |s.clients| && s.clients[i].Done? ==>
                  var c := s.clients[i];
                  && c.at < |s.ops|
                  && s.ops[c.at].Take? && s.ops[c.at].client == i
                  && (c.outcome == OutOfStock <==> s.ops[c.at].result < 0)
                  && (c.outcome.Success? ==> c.outcome.remaining == s.ops[c.at].result)
                  && (c.outcome.DeliveryFailed? <==> exists j :: c.at < j < |s.ops| && s.ops[j] == Return(i, c.at)))
            && (forall j, k :: 0 <= j < k < |s.ops| && s.ops[j].Take? && s.ops[k].Take? ==>
                  s.ops[j].client != s.ops[k].client)
            && (forall j, k :: 0 <= j < k < |s.ops| && s.ops[j].Return? && s.ops[k].Return? ==>
                  s.ops[j].client != s.ops[k].client)
  {
    RunKeepsCallInv(labels);
    var s := Exec(INIT, labels);
    forall i | 0 <= i < |s.clients| && s.clients[i].Done?
      ensures OwnsTake(s.ops, i, s.clients[i]) && Undone(s.ops, i, s.clients[i])
    {
    }
    forall j | 0 <= j < |s.ops|
      ensures OwnedBy(s.clients, j, s.ops[j])
    {
    }
  }

  /** INCR never meets a missing key: while a call may still roll back, the inventory key is there. */
  lemma KeyPresentWhileInFlight(labels: seq<Label>, i: nat)
    requires i < |Exec(INIT, labels).clients| && InFlight(Exec(INIT, labels).clients[i])
    ensures var s := Exec(INIT, labels);
            s.counter.Some? && Stock(Do(s, Rollback(i))) == Stock(s) + if s.clients[i].Undoing? then 1 else 0
  {
    RunKeepsCallInv(labels);
    var s := Exec(INIT, labels);
    assert OwnsTake(s.ops, i, s.clients[i]);
  }

  // -------------------------------------------------- events and their takes

  /** The call has had its one emit. */
  predicate Emitted(c: Client) {
    c.Undoing? || (c.Done? && !c.outcome.OutOfStock?)
  }

  /** The event tells of the take of this call. */
  predicate Reports(event: Event, ops: seq<Op>, c: Client) {
    && Emitted(c) && c.at < |ops| && ops[c.at].Take? && 0 <= ops[c.at].result
    && event.remaining == ops[c.at].result && event.success && event.message == Message(ops[c.at].result)
  }

  ghost predicate SalesInv(s: State) {
    && |s.sellers| == |s.log|
    && (forall k :: 0 <= k < |s.log| ==>
          s.sellers[k] < |s.clients| && Reports(s.log[k], s.ops, s.clients[s.sellers[k]]))
    && (forall j, k :: 0 <= j < k < |s.log| ==> s.sellers[j] != s.sellers[k])
  }

  lemma StepKeepsSales(s: State, l: Label)
    requires CallInv(s) && SalesInv(s)
    ensures SalesInv(Do(s, l))
  {
    if Enabled(s, l) {
      match l
      case Emit(i, result, id) => EmitKeepsSales(s, i, result, id);
      case Rollback(i) => QuietStepKeepsSales(s, DoRollback(s, i), i);
      case Acquire(i) => QuietStepKeepsSales(s, DoAcquire(s, i), i);
      case Eval(i) => QuietStepKeepsSales(s, DoEval(s, i), i);
      case Release(i) => QuietStepKeepsSales(s, DoRelease(s, i), i);
      case _ =>
    }
  }

  lemma EmitKeepsSales(s: State, i: nat, result: EmitResult, id: string)
    requires CallInv(s) && SalesInv(s) && i < |s.clients| && s.clients[i].Emitting?
    ensures SalesInv(DoEmit(s, i, result, id))
  {
    var t := DoEmit(s, i, result, id);
    assert OwnsTake(s.ops, i, s.clients[i]);
    if result.Lost? {
      QuietStepKeepsSales(s, t, i);
    } else {
      SaleKeepsSales(s, t, i, ItemUsed(s.clients[i].remaining, id));
    }
  }

  /** The one emit of client `i` reaches the topic. */
  lemma SaleKeepsSales(s: State, t: State, i: nat, event: Event)
    requires SalesInv(s) && i < |s.clients| && !Emitted(s.clients[i])
    requires i < |t.clients| && t.clients == s.clients[i := t.clients[i]] && t.ops == s.ops
    requires t.log == s.log + [event] && t.sellers == s.sellers + [i] && Reports(event, s.ops, t.clients[i])
    ensures SalesInv(t)
  {
    assert forall k :: 0 <= k < |s.log| ==> Reports(s.log[k], s.ops, s.clients[s.sellers[k]]) && s.sellers[k] != i;
  }

  /** A step of client `i` that emits nothing. */
  lemma QuietStepKeepsSales(s: State, t: State, i: nat)
    requires SalesInv(s) && i < |s.clients| && i < |t.clients| && t.clients == s.clients[i := t.clients[i]]
    requires t.log == s.log && t.sellers == s.sellers && s.ops <= t.ops
    requires Emitted(s.clients[i]) ==> Emitted(t.clients[i]) && t.clients[i].at == s.clients[i].at
    ensures SalesInv(t)
  {
  }

  lemma {:induction false} RunKeepsSales(labels: seq<Label>)
    ensures SalesInv(Exec(INIT, labels))
  {
    if labels == [] {
    } else {
      RunKeepsCallInv(labels[..|labels| - 1]);
      RunKeepsSales(labels[..|labels| - 1]);
      StepKeepsSales(Exec(INIT, labels[..|labels| - 1]), labels[|labels| - 1]);
    }
  }

  /**
    Every delivered event reports the reply of a successful decrement by the call behind it, and no call emits
    twice.
   */
  lemma EventsReportDistinctTakes(labels: seq<Label>)
    ensures var s := Exec(INIT, labels);
            && |s.sellers| == |s.log|
            && (forall k :: 0 <= k < |s.log| ==>
                  && 0 <= s.log[k].remaining
                  && s.log[k].message == Message(s.log[k].remaining)
                  && Take(s.sellers[k], s.log[k].remaining) in s.ops)
            && (forall j, k :: 0 <= j < k < |s.log| ==> s.sellers[j] != s.sellers[k])
  {
    RunKeepsSales(labels);
    RunKeepsCallInv(labels);
    var s := Exec(INIT, labels);
    forall k | 0 <= k < |s.log|
      ensures Reports(s.log[k], s.ops, s.clients[s.sellers[k]]) && Take(s.sellers[k], s.log[k].remaining) in s.ops
    {
      var c := s.clients[s.sellers[k]];
      assert OwnsTake(s.ops, s.sellers[k], c);
      assert s.ops[c.at] == Take(s.sellers[k], s.log[k].remaining);
    }
  }

  // ---------------------------------------------------- ledger across resets

  /** Position just after the last reset. */
  function Since(ops: seq<Op>): (n: nat)
    ensures n <= |ops|
  {
    if ops == [] then 0
    else if ops[|ops| - 1].Reset? then |ops|
    else Since(ops[..|ops| - 1])
  }

  /** Successful takes since the last reset. */
  function Taken(ops: seq<Op>): nat {
    if ops == [] || ops[|ops| - 1].Reset? then 0 else
    var op := ops[|ops| - 1];
    Taken(ops[..|ops| - 1]) + if op.Take? && 0 <= op.result then 1 else 0
  }

  /** Returns since the last reset. */
  function Returned(ops: seq<Op>): nat {
    if ops == [] || ops[|ops| - 1].Reset? then 0 else
    Returned(ops[..|ops| - 1]) + if ops[|ops| - 1].Return? then 1 else 0
  }

  /** Returns since the last reset of items that had been taken before it. */
  function Stale(ops: seq<Op>): nat {
    if ops == [] || ops[|ops| - 1].Reset? then 0 else
    var op := ops[|ops| - 1];
    Stale(ops[..|ops| - 1]) + if op.Return? && op.at < Since(ops[..|ops| - 1]) then 1 else 0
  }

  lemma {:induction false} ReplayIsLedger(ops: seq<Op>)
    requires Legal(ops)
    ensures Replay(ops) == INITIAL_STOCK - Taken(ops) + Returned(ops)
  {
    if ops == [] {
    } else {
      ReplayIsLedger(ops[..|ops| - 1]);
    }
  }

  /** Taken since position `since` and either still in flight or sold. */
  function Kept(since: nat): Client -> bool {
    (c: Client) => (InFlight(c) || (c.Done? && c.outcome.Success?)) && since <= c.at
  }

  /** In flight with an item taken before position `since`. */
  function Overtaken(since: nat): Client -> bool {
    (c: Client) => InFlight(c) && c.at < since
  }

  ghost predicate LedgerInv(s: State) {
    && Taken(s.ops) + Stale(s.ops) == Returned(s.ops) + Count(s.clients, Kept(Since(s.ops)))
    && Stale(s.ops) + Count(s.clients, Overtaken(Since(s.ops))) <= s.inFlightAtReset
  }

  lemma ResetStartsNewLedger(s: State)
    requires CallInv(s)
    ensures LedgerInv(DoReset(s))
  {
    var since := |s.ops| + 1;
    forall i | 0 <= i < |s.clients|
      ensures !Kept(since)(s.clients[i])
    {
      assert OwnsTake(s.ops, i, s.clients[i]);
    }
    CountZero(s.clients, Kept(since));
    CountMonotone(s.clients, Overtaken(since), InFlight);
  }

  /** How one client's move changes the two counts. */
  lemma MoveClient(s: State, i: nat, c: Client)
    requires i < |s.clients|
    ensures var k := Kept(Since(s.ops)); var o := Overtaken(Since(s.ops)); var next := s.clients[i := c];
            && Count(next, k) == Count(s.clients, k) - (if k(s.clients[i]) then 1 else 0) + (if k(c) then 1 else 0)
            && Count(next, o) == Count(s.clients, o) - (if o(s.clients[i]) then 1 else 0) + (if o(c) then 1 else 0)
  {
    CountUpdate(s.clients, i, c, Kept(Since(s.ops)));
    CountUpdate(s.clients, i, c, Overtaken(Since(s.ops)));
  }

  lemma StepKeepsLedgerInv(s: State, l: Label)
    requires CallInv(s) && LedgerInv(s)
    ensures LedgerInv(Do(s, l))
  {
    if Enabled(s, l) {
      match l
      case Start => StartKeepsLedger(s);
      case Acquire(i) => AcquireKeepsLedger(s, i);
      case Eval(i) => EvalKeepsLedger(s, i);
      case Release(i) => ReleaseKeepsLedger(s, i);
      case Emit(i, result, id) => EmitKeepsLedger(s, i, result, id);
      case Rollback(i) => RollbackKeepsLedger(s, i);
      case ResetStock => ResetStartsNewLedger(s);
      case Pass(_) =>
      case Expire =>
    }
  }

  lemma StartKeepsLedger(s: State)
    requires LedgerInv(s)
    ensures LedgerInv(s.(clients := s.clients + [Acquiring(1)]))
  {
    CountAppend(s.clients, Acquiring(1), Kept(Since(s.ops)));
    CountAppend(s.clients, Acquiring(1), Overtaken(Since(s.ops)));
  }

  lemma AcquireKeepsLedger(s: State, i: nat)
    requires LedgerInv(s) && i < |s.clients| && s.clients[i].Acquiring?
    ensures LedgerInv(DoAcquire(s, i))
  {
    QuietMoveKeepsLedger(s, i, DoAcquire(s, i));
  }

  lemma EvalKeepsLedger(s: State, i: nat)
    requires LedgerInv(s) && i < |s.clients| && s.clients[i].Holding?
    ensures LedgerInv(DoEval(s, i))
  {
    var t := DoEval(s, i);
    OperationMovesLedger(s, i, t.clients[i], Take(i, t.clients[i].remaining));
  }

  lemma ReleaseKeepsLedger(s: State, i: nat)
    requires CallInv(s) && LedgerInv(s) && i < |s.clients| && s.clients[i].Leaving?
    ensures LedgerInv(DoRelease(s, i))
  {
    QuietMoveKeepsLedger(s, i, DoRelease(s, i));
  }

  lemma EmitKeepsLedger(s: State, i: nat, result: EmitResult, id: string)
    requires CallInv(s) && LedgerInv(s) && i < |s.clients| && s.clients[i].Emitting?
    ensures LedgerInv(DoEmit(s, i, result, id))
  {
    QuietMoveKeepsLedger(s, i, DoEmit(s, i, result, id));
  }

  lemma RollbackKeepsLedger(s: State, i: nat)
    requires CallInv(s) && LedgerInv(s) && i < |s.clients| && s.clients[i].Undoing?
    ensures LedgerInv(DoRollback(s, i))
  {
    OperationMovesLedger(s, i, Done(DeliveryFailed, s.clients[i].at), Return(i, s.clients[i].at));
  }

  /** A take or return by client `i`, in terms of the ledger's four figures. */
  lemma OperationMovesLedger(s: State, i: nat, c: Client, op: Op)
    requires i < |s.clients| && !op.Reset?
    ensures var k := Kept(Since(s.ops)); var o := Overtaken(Since(s.ops)); var next := s.clients[i := c];
            && Since(s.ops + [op]) == Since(s.ops)
            && Taken(s.ops + [op]) == Taken(s.ops) + (if op.Take? && 0 <= op.result then 1 else 0)
            && Returned(s.ops + [op]) == Returned(s.ops) + (if op.Return? then 1 else 0)
            && Stale(s.ops + [op]) == Stale(s.ops) + (if op.Return? && op.at < Since(s.ops) then 1 else 0)
            && Count(next, k) == Count(s.clients, k) - (if k(s.clients[i]) then 1 else 0) + (if k(c) then 1 else 0)
            && Count(next, o) == Count(s.clients, o) - (if o(s.clients[i]) then 1 else 0) + (if o(c) then 1 else 0)
  {
    assert (s.ops + [op])[..|s.ops|] == s.ops;
    MoveClient(s, i, c);
  }

  /** A move of client `i` that neither takes nor returns. */
  lemma QuietMoveKeepsLedger(s: State, i: nat, t: State)
    requires LedgerInv(s) && i < |s.clients| && i < |t.clients|
    requires t.ops == s.ops && t.clients == s.clients[i := t.clients[i]] && t.inFlightAtReset == s.inFlightAtReset
    requires Kept(Since(s.ops))(s.clients[i]) == Kept(Since(s.ops))(t.clients[i])
    requires Overtaken(Since(s.ops))(t.clients[i]) ==> Overtaken(Since(s.ops))(s.clients[i])
    ensures LedgerInv(t)
  {
    MoveClient(s, i, t.clients[i]);
  }

  lemma {:induction false} RunKeepsLedgerInv(labels: seq<Label>)
    ensures LedgerInv(Exec(INIT, labels))
  {
    if labels == [] {
    } else {
      RunKeepsCallInv(labels[..|labels| - 1]);
      RunKeepsLedgerInv(labels[..|labels| - 1]);
      StepKeepsLedgerInv(Exec(INIT, labels[..|labels| - 1]), labels[|labels| - 1]);
    }
  }

  /**
    The ledger of every run, with any number of resets: the stock is 1000 less the takes plus the returns since
    the last reset; it exceeds 1000 by exactly the stale returns less the items kept since, hence by at most
    the number of calls that were in flight at the reset.
   */
  lemma StockLedger(labels: seq<Label>)
    ensures var s := Exec(INIT, labels);
            && Stock(s) == INITIAL_STOCK - Taken(s.ops) + Returned(s.ops)
            && Stock(s) == INITIAL_STOCK + Stale(s.ops) - Count(s.clients, Kept(Since(s.ops)))
            && Stock(s) <= INITIAL_STOCK + Stale(s.ops)
            && Stale(s.ops) <= s.inFlightAtReset
  {
    RunKeepsCallInv(labels);
    RunKeepsLedgerInv(labels);
    ReplayIsLedger(Exec(INIT, labels).ops);
  }

  /**
    A rollback does not always restore consistency: whatever the run so far, resetting while a call is about to
    emit, and then losing that emit, leaves 1001 items.
   */
  lemma ResetBeforeRollbackOvershoots(labels: seq<Label>, i: nat)
    requires i < |Exec(INIT, labels).clients| && Exec(INIT, labels).clients[i].Emitting?
    ensures Stock(Exec(INIT, labels + [ResetStock] + [Emit(i, Lost, "")] + [Rollback(i)])) == INITIAL_STOCK + 1
  {
    var s := DoReset(Exec(INIT, labels));
    ExecStep(INIT, labels, ResetStock);
    ExecStep(INIT, labels + [ResetStock], Emit(i, Lost, ""));
    ExecStep(INIT, labels + [ResetStock] + [Emit(i, Lost, "")], Rollback(i));
    assert DoEmit(s, i, Lost, "") == s.(clients := s.clients[i := Undoing(s.clients[i].remaining, s.clients[i].at)]);
  }

  /** A concrete run to such a call: start, acquire, decrement, release. */
  lemma EmittingIsReachable()
    ensures Exec(INIT, [Start] + [Acquire(0)] + [Eval(0)] + [Release(0)]).clients == [Emitting(999, 0)]
  {
    ExecStep(INIT, [], Start);
    assert [] + [Start] == [Start];
    ExecStep(INIT, [Start], Acquire(0));
    ExecStep(INIT, [Start] + [Acquire(0)], Eval(0));
    ExecStep(INIT, [Start] + [Acquire(0)] + [Eval(0)], Release(0));
    assert Exec(INIT, [Start]).clients == [Acquiring(1)];
    assert Exec(INIT, [Start] + [Acquire(0)]).clients == [Holding(0, 0)];
    assert Exec(INIT, [Start] + [Acquire(0)] + [Eval(0)]).clients == [Leaving(0, 0, 999, 0)];
  }

  // ------------------------------------------------------------ conservation

  /**
    Items never appear or vanish: initial stock, restocking and phantom events equal stock, in-flight items and
    events.
   */
  ghost predicate Conserved(s: State) {
    INITIAL_STOCK + s.restocked + s.phantoms == Stock(s) + Count(s.clients, InFlight) + |s.log|
  }

  lemma StepConserves(s: State, l: Label)
    requires CounterInv(s) && CallInv(s) && Conserved(s)
    ensures Conserved(Do(s, l))
  {
    if Enabled(s, l) {
      match l
      case Start => CountAppend(s.clients, Acquiring(1), InFlight);
      case Acquire(i) => MoveConserves(s, i, DoAcquire(s, i));
      case Eval(i) => EvalConserves(s, i);
      case Release(i) => MoveConserves(s, i, DoRelease(s, i));
      case Emit(i, result, id) => EmitConserves(s, i, result, id);
      case Rollback(i) => RollbackConserves(s, i);
      case ResetStock =>
      case Pass(_) =>
      case Expire =>
    }
  }

  lemma EvalConserves(s: State, i: nat)
    requires CounterInv(s) && Conserved(s) && i < |s.clients| && s.clients[i].Holding?
    ensures Conserved(DoEval(s, i))
  {
    MoveConserves(s, i, DoEval(s, i));
  }

  lemma EmitConserves(s: State, i: nat, result: EmitResult, id: string)
    requires Conserved(s) && i < |s.clients| && s.clients[i].Emitting?
    ensures Conserved(DoEmit(s, i, result, id))
  {
    MoveConserves(s, i, DoEmit(s, i, result, id));
  }

  lemma RollbackConserves(s: State, i: nat)
    requires CounterInv(s) && CallInv(s) && Conserved(s) && i < |s.clients| && s.clients[i].Undoing?
    ensures Conserved(DoRollback(s, i))
  {
    assert OwnsTake(s.ops, i, s.clients[i]);
    MoveConserves(s, i, DoRollback(s, i));
  }

  /** A move of client `i` whose effects on stock, flight, log and phantoms balance. */
  lemma MoveConserves(s: State, i: nat, t: State)
    requires Conserved(s) && i < |s.clients| && i < |t.clients|
    requires t.clients == s.clients[i := t.clients[i]] && t.restocked == s.restocked
    requires t.phantoms - s.phantoms
          == Stock(t) - Stock(s) + |t.log| - |s.log|
             + (if InFlight(t.clients[i]) then 1 else 0) - (if InFlight(s.clients[i]) then 1 else 0)
    ensures Conserved(t)
  {
    CountUpdate(s.clients, i, t.clients[i], InFlight);
  }

  /** Conservation over every run; without resets `restocked` is 0. */
  lemma {:induction false} RunConserves(labels: seq<Label>)
    ensures Conserved(Exec(INIT, labels))
    ensures ResetStock !in labels ==> Exec(INIT, labels).restocked == 0
  {
    if labels == [] {
    } else {
      var before := labels[..|labels| - 1];
      RunKeepsCallInv(before);
      RunConserves(before);
      StepConserves(Exec(INIT, before), labels[|labels| - 1]);
      OnlyResetsRestock(Exec(INIT, before), labels[|labels| - 1]);
    }
  }

  lemma OnlyResetsRestock(s: State, l: Label)
    ensures !l.ResetStock? ==> Do(s, l).restocked == s.restocked
  {
  }
}
