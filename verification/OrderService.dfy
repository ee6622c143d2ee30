/**
  OrderService itself (order-consumer/src/orders/order.service.ts): a buffer and a flag, changed in place by methods
  whose every run is a run of the step system in module OverlappingFlushes, and, as long as no shutdown begins during
  a flush, of the one in module OrderConsumer.

  What other parties do at each await is a parameter: how the call to the database or broker turns out, which events
  arrive, and what other flushes do meanwhile.
 */
module OrderService {
  import opened Common
  import opened OrderConsumer
  import opened FlushLaws
  import O = OverlappingFlushes

  /** The orders table behind `Repository<Order>`. */
  class OrderRepository {
    var rows: seq<Row>

    constructor ()
      ensures rows == []
    {
      rows := [];
    }

    method SaveOrders(batch: seq<Message>, persisted: bool, fault: Fault) returns (ok: bool)
      modifies this
      ensures (rows, ok) == Save(old(rows), batch, persisted, fault)
    {
      if fault.Refused? || (!persisted && Clashes(rows, batch)) {
        return false;
      }
      if !persisted {
        rows := rows + Rows(batch);
      }
      ok := fault.NoFault?;
    }
  }

  /** The topic, the group's committed offsets, and how far this process has been served. */
  class KafkaConsumer {
    var logs: seq<seq<Event>>
    var committed: seq<nat>
    var position: seq<nat>

    constructor (partitions: nat)
      ensures logs == seq(partitions, _ => []) && committed == position == seq(partitions, _ => 0)
    {
      logs := seq(partitions, _ => []);
      committed := seq(partitions, _ => 0);
      position := seq(partitions, _ => 0);
    }

    predicate HasNext(p: nat)
      reads this
    {
      p < |logs| && p < |position| && position[p] < |logs[p]|
    }

    function NextMessage(p: nat): Message
      requires HasNext(p)
      reads this
    {
      Message(p, position[p], logs[p][position[p]])
    }

    method Next(p: nat) returns (m: Message)
      requires HasNext(p)
      modifies this`position
      ensures m == Message(p, old(position[p]), logs[p][old(position[p])])
      ensures position == old(position)[p := old(position[p]) + 1]
    {
      m := Message(p, position[p], logs[p][position[p]]);
      position := position[p := position[p] + 1];
    }

    /** One entry per partition; later entries for a partition would win, but there are none. */
    method Commit(entries: seq<(nat, nat)>, fault: Fault) returns (ok: bool)
      requires forall i :: 0 <= i < |entries| ==> entries[i].0 < |committed|
      requires forall i, j :: 0 <= i < j < |entries| ==> entries[i].0 != entries[j].0
      modifies this`committed
      ensures ok == fault.NoFault?
      ensures fault.Refused? ==> committed == old(committed)
      ensures |committed| == |old(committed)|
      ensures !fault.Refused? ==> forall i :: 0 <= i < |entries| ==> committed[entries[i].0] == entries[i].1
      ensures forall p :: 0 <= p < |committed| && (forall i :: 0 <= i < |entries| ==> entries[i].0 != p) ==>
                committed[p] == old(committed)[p]
    {
      if fault.Refused? {
        return false;
      }
      for k := 0 to |entries|
        invariant |committed| == |old(committed)|
        invariant forall i :: 0 <= i < k ==> committed[entries[i].0] == entries[i].1
        invariant forall p :: 0 <= p < |committed| && (forall i :: 0 <= i < k ==> entries[i].0 != p) ==>
                    committed[p] == old(committed)[p]
      {
        committed := committed[entries[k].0 := entries[k].1];
      }
      ok := fault.NoFault?;
    }
  }

  /** What happens around the awaits of one attempt of the retry loop. */
  datatype Attempt = Attempt(duringSave: seq<O.Label>, save: Fault, duringCommit: seq<O.Label>, commit: Fault,
                             duringBackoff: seq<O.Label>)

  /** Other flushes, arriving events and shutdowns: everything but flush `i`, and a crash, which would end it. */
  predicate Elsewhere(labels: seq<O.Label>, i: nat) {
    forall k :: 0 <= k < |labels| ==> if labels[k].Env? then !labels[k].step.Crash? else labels[k].flush != i
  }

  predicate ValidScript(script: seq<Attempt>, i: nat) {
    && |script| == MAX_RETRIES
    && forall k :: 0 <= k < |script| ==>
         Elsewhere(script[k].duringSave, i) && Elsewhere(script[k].duringCommit, i)
         && Elsewhere(script[k].duringBackoff, i)
  }

  lemma ElsewhereStep(s: O.State, l: O.Label, i: nat)
    requires i < |s.flushes| && if l.Env? then !l.step.Crash? else l.flush != i
    ensures i < |O.Do(s, l).flushes| && O.Do(s, l).flushes[i] == s.flushes[i]
  {
  }

  lemma {:induction false} ElsewhereKeepsFlush(s: O.State, labels: seq<O.Label>, i: nat)
    requires i < |s.flushes| && Elsewhere(labels, i)
    ensures i < |O.Exec(s, labels).flushes| && O.Exec(s, labels).flushes[i] == s.flushes[i]
  {
    if labels == [] {
    } else {
      ElsewhereKeepsFlush(s, labels[..|labels| - 1], i);
      ElsewhereStep(O.Exec(s, labels[..|labels| - 1]), labels[|labels| - 1], i);
    }
  }

  // --------------------------------------------------- a flush as a run

  predicate Committed(s: O.State, i: nat) {
    i < |s.flushes| && s.flushes[i].flight.Committing?
  }

  predicate Ended(s: O.State, i: nat) {
    i < |s.flushes| && s.flushes[i].flight.Idle?
  }

  /** One pass of the retry loop of flush `i`. */
  function Attempted(s: O.State, i: nat, a: Attempt): O.State {
    var saved := O.Do(O.Exec(s, a.duringSave), O.Of(i, SaveBatch(a.save)));
    if !Committed(saved, i) then O.Exec(saved, a.duringBackoff) else
    var committed := O.Do(O.Exec(saved, a.duringCommit), O.Of(i, CommitBatch(a.commit)));
    if Ended(committed, i) then committed else O.Exec(committed, a.duringBackoff)
  }

  /** The first `n` passes; the loop is left as soon as a pass has completed the batch. */
  function Attempts(s: O.State, i: nat, script: seq<Attempt>, n: nat): O.State
    requires n <= |script|
  {
    if n == 0 then s else
    var before := Attempts(s, i, script, n - 1);
    if Ended(before, i) then before else Attempted(before, i, script[n - 1])
  }

  /** The whole flush: when no pass completes the batch, the loop runs out and the batch is given up. */
  function Flushed(s: O.State, i: nat, script: seq<Attempt>): O.State {
    O.Do(Attempts(s, i, script, |script|), O.Of(i, GiveUp))
  }

  /** Once a pass has completed the batch, nothing more happens. */
  lemma {:induction false} StaysEnded(s: O.State, i: nat, script: seq<Attempt>, k: nat, n: nat)
    requires k <= n <= |script| && Ended(Attempts(s, i, script, k), i)
    ensures Attempts(s, i, script, n) == Attempts(s, i, script, k)
  {
    if k == n {
    } else {
      StaysEnded(s, i, script, k, n - 1);
    }
  }

  lemma CompletedFlush(s: O.State, i: nat, script: seq<Attempt>, k: nat)
    requires k <= |script| && Ended(Attempts(s, i, script, k), i)
    ensures Flushed(s, i, script) == Attempts(s, i, script, k)
  {
    StaysEnded(s, i, script, k, |script|);
  }

  /** No shutdown is among the labels. */
  predicate NoShutdown(labels: seq<O.Label>) {
    O.Env(Shutdown) !in labels
  }

  predicate NoShutdowns(script: seq<Attempt>) {
    forall k :: 0 <= k < |script| ==>
      NoShutdown(script[k].duringSave) && NoShutdown(script[k].duringCommit) && NoShutdown(script[k].duringBackoff)
  }

  lemma AttemptIsRun(s: O.State, i: nat, a: Attempt) returns (trace: seq<O.Label>)
    ensures O.Exec(s, trace) == Attempted(s, i, a)
    ensures NoShutdowns([a]) ==> NoShutdown(trace)
  {
    assert NoShutdowns([a]) ==>
        NoShutdown([a][0].duringSave) && NoShutdown([a][0].duringCommit) && NoShutdown([a][0].duringBackoff);
    O.ExecStep(s, a.duringSave, O.Of(i, SaveBatch(a.save)));
    trace := a.duringSave + [O.Of(i, SaveBatch(a.save))];
    if Committed(O.Exec(s, trace), i) {
      O.ExecThen(s, trace, a.duringCommit);
      O.ExecStep(s, trace + a.duringCommit, O.Of(i, CommitBatch(a.commit)));
      trace := trace + a.duringCommit + [O.Of(i, CommitBatch(a.commit))];
      if Ended(O.Exec(s, trace), i) {
        return;
      }
    }
    O.ExecThen(s, trace, a.duringBackoff);
    trace := trace + a.duringBackoff;
  }

  lemma {:induction false} AttemptsAreRun(s: O.State, i: nat, script: seq<Attempt>, n: nat)
    returns (trace: seq<O.Label>)
    requires n <= |script|
    ensures O.Exec(s, trace) == Attempts(s, i, script, n)
    ensures NoShutdowns(script) ==> NoShutdown(trace)
  {
    if n == 0 {
      trace := [];
    } else {
      trace := AttemptsAreRun(s, i, script, n - 1);
      var before := Attempts(s, i, script, n - 1);
      if !Ended(before, i) {
        var more := AttemptIsRun(before, i, script[n - 1]);
        O.ExecThen(s, trace, more);
        trace := trace + more;
      }
    }
  }

  /** Every call of `flush`, whatever other flushes do meanwhile, is a run of the step system. */
  lemma FlushIsRun(s: O.State, i: nat, script: seq<Attempt>) returns (trace: seq<O.Label>)
    ensures O.Exec(s, trace) == Flushed(s, i, script)
    ensures NoShutdowns(script) ==> NoShutdown(trace)
  {
    trace := AttemptsAreRun(s, i, script, |script|);
    O.ExecStep(s, trace, O.Of(i, GiveUp));
    trace := trace + [O.Of(i, GiveUp)];
  }

  /**
    A call that begins while no other flush is running, and sees no shutdown, is a run of the consumer with one
    flush, so all that holds of every such run holds of it, and it splices its own batch only.
   */
  lemma CalmFlushIsConsumerRun(s: O.State, i: nat, script: seq<Attempt>) returns (trace: seq<Label>)
    requires O.Inv(s) && O.Solo(s) && NoShutdowns(script)
    ensures var t := Flushed(s, i, script);
            O.Solo(t) && O.Merge(t) == Exec(O.Merge(s), trace)
  {
    var steps := FlushIsRun(s, i, script);
    O.WithoutShutdownCalm(s, steps);
    trace := O.CalmRuns(s, steps);
  }

  // ------------------------------------------- flushes that meet nobody

  /** The first `k` attempts are refused by the database, and nothing else happens. */
  predicate RefusedFirst(script: seq<Attempt>, k: nat) {
    && k <= |script|
    && forall j :: 0 <= j < k ==>
         script[j].save.Refused? && script[j].duringSave == [] && script[j].duringBackoff == []
  }

  /** Save and commit succeed, and nothing else happens. */
  predicate Clean(a: Attempt) {
    a.duringSave == [] && a.duringCommit == [] && a.save.NoFault? && a.commit.NoFault?
  }

  predicate AtAttempt(s: O.State, i: nat, attempt: nat) {
    s.base.flight.Idle? && i < |s.flushes| && s.flushes[i].flight.Saving?
    && s.flushes[i].flight.attempt == attempt && !s.flushes[i].flight.persisted
  }

  /** An attempt is left, and nothing is saved. */
  predicate MayTry(s: O.State, i: nat) {
    s.base.flight.Idle? && i < |s.flushes| && s.flushes[i].flight.Saving?
    && s.flushes[i].flight.attempt <= 5 && !s.flushes[i].flight.persisted
  }

  function Later(f: O.Flush, k: nat): O.Flush
    requires f.flight.Saving?
  {
    f.(flight := Saving(f.flight.batch, f.flight.attempt + k, f.flight.persisted))
  }

  lemma RefusedAttempt(s: O.State, i: nat, a: Attempt)
    requires MayTry(s, i)
    requires a.save.Refused? && a.duringSave == [] && a.duringBackoff == []
    ensures Attempted(s, i, a) == s.(flushes := s.flushes[i := Later(s.flushes[i], 1)])
  {
  }

  lemma OverwriteLater(flushes: seq<O.Flush>, i: nat, k: nat)
    requires i < |flushes| && flushes[i].flight.Saving? && 0 < k
    ensures flushes[i := Later(flushes[i], k - 1)][i := Later(Later(flushes[i], k - 1), 1)] ==
            flushes[i := Later(flushes[i], k)]
  {
  }

  lemma {:induction false} RefusedAttempts(s: O.State, i: nat, script: seq<Attempt>, k: nat)
    requires AtAttempt(s, i, 1) && RefusedFirst(script, k) && k <= 5
    ensures Attempts(s, i, script, k) == s.(flushes := s.flushes[i := Later(s.flushes[i], k)])
  {
    if k == 0 {
      assert s.flushes[i := s.flushes[i]] == s.flushes;
    } else {
      RefusedAttempts(s, i, script, k - 1);
      var before := Attempts(s, i, script, k - 1);
      RefusedAttempt(before, i, script[k - 1]);
      OverwriteLater(s.flushes, i, k);
    }
  }

  lemma CleanAttempt(s: O.State, i: nat, a: Attempt)
    requires MayTry(s, i)
    requires Clean(a) && !Clashes(s.base.rows, s.flushes[i].flight.batch)
    ensures var t := Attempted(s, i, a);
            var batch := s.flushes[i].flight.batch;
            && t.base.rows == s.base.rows + Rows(batch)
            && t.base.committed == CommitAll(s.base.committed, Latest(batch))
            && t.base.buffer == Splice(s.base.buffer, |batch|) && t.base.dropped == s.base.dropped
            && !t.flushing && Ended(t, i)
  {
    var saved := O.Do(s, O.Of(i, SaveBatch(NoFault)));
    O.CommitIs(saved, i, NoFault);
  }

  /** After some refusals a clean attempt stores the batch. */
  lemma FlushStores(s: O.State, i: nat, script: seq<Attempt>, k: nat)
    requires AtAttempt(s, i, 1) && |script| == 5 && RefusedFirst(script, k) && k < 5
    requires Clean(script[k]) && !Clashes(s.base.rows, s.flushes[i].flight.batch)
    ensures var t := Flushed(s, i, script);
            var batch := s.flushes[i].flight.batch;
            && !t.flushing && t.base.buffer == Splice(s.base.buffer, |batch|)
            && t.base.rows == s.base.rows + Rows(batch)
            && t.base.committed == CommitAll(s.base.committed, Latest(batch))
            && t.base.dropped == s.base.dropped
  {
    RefusedAttempts(s, i, script, k);
    var before := Attempts(s, i, script, k);
    assert before.flushes[i] == Later(s.flushes[i], k);
    CleanAttempt(before, i, script[k]);
    assert Attempts(s, i, script, k + 1) == Attempted(before, i, script[k]);
    CompletedFlush(s, i, script, k + 1);
  }

  /** After five refusals it is given up. */
  lemma FlushGivesUp(s: O.State, i: nat, script: seq<Attempt>)
    requires AtAttempt(s, i, 1) && |script| == 5 && RefusedFirst(script, 5)
    ensures var t := Flushed(s, i, script);
            var batch := s.flushes[i].flight.batch;
            && !t.flushing && t.base.buffer == Splice(s.base.buffer, |batch|)
            && t.base.rows == s.base.rows && t.base.committed == s.base.committed
            && t.base.dropped == s.base.dropped + BatchKeys(batch)
  {
    RefusedAttempts(s, i, script, 5);
  }

  /** So of a flush that a shutdown begins. */
  lemma UndisturbedFlush(s: O.State, script: seq<Attempt>, k: nat)
    requires O.Inv(s) && s.base.buffer != [] && |script| == 5 && RefusedFirst(script, k)
    requires k < 5 ==> Clean(script[k]) && AllNew(s.base.rows, FirstThree(s.base.buffer))
    ensures var t := Flushed(O.Do(s, O.Env(Shutdown)), |s.flushes|, script);
            !t.flushing && if k < 5 then Stored(s.base, t.base) else Lost(s.base, t.base)
  {
    var begun := O.Do(s, O.Env(Shutdown));
    var batch := FirstThree(s.base.buffer);
    O.StepKeepsInv(s, O.Env(Shutdown));
    CaptureTakesThree(s, O.Env(Shutdown));
    ShutdownBeginsIff(s);
    if k < 5 {
      NewDoesNotClash(begun, |s.flushes|);
      FlushStores(begun, |s.flushes|, script, k);
    } else {
      FlushGivesUp(begun, |s.flushes|, script);
    }
    CommitIsPast(s.base.committed, batch);
    SpliceIsRest(s.base.buffer);
  }

  /** The whole of `createFromEvent`. */
  function Created(s: O.State, p: nat, script: seq<Attempt>): O.State {
    var delivered := O.Do(s, O.Env(Deliver(p)));
    if |delivered.flushes| == |s.flushes| then delivered else Flushed(delivered, |s.flushes|, script)
  }

  /** With fewer than three buffered, or the flag up, it is only the push; otherwise the first three are stored. */
  lemma UndisturbedDelivery(s: O.State, p: nat, script: seq<Attempt>)
    requires O.Inv(s) && Enabled(s.base, Deliver(p)) && |script| == 5
    ensures var t := Created(s, p, script);
            var buffer := s.base.buffer + [Message(p, s.base.position[p], s.base.logs[p][s.base.position[p]])];
            if |buffer| < 3 || s.flushing then
              && t.flushes == s.flushes && t.flushing == s.flushing && t.base.buffer == buffer
              && t.base.rows == s.base.rows && t.base.committed == s.base.committed
            else
              Clean(script[0]) && AllNew(s.base.rows, buffer[..3]) ==>
                && !t.flushing && t.base.buffer == buffer[3..] && t.base.rows == s.base.rows + Rows(buffer[..3])
                && CommittedPast(s.base.committed, buffer[..3], t.base.committed)
  {
    var pushed := O.Pushed(s, p);
    O.PushKeepsInv(s, p);
    O.DeliverIsPush(s, p);
    DeliveryBeginsIff(s, p);
    if 3 <= |pushed.base.buffer| && !s.flushing {
      if Clean(script[0]) && AllNew(s.base.rows, pushed.base.buffer[..3]) {
        UndisturbedFlush(pushed, script, 0);
      }
    }
  }

  /** The entries of `commitOffsets`: one per partition of the batch, in order of first appearance. */
  predicate CommitsExactly(entries: seq<(nat, nat)>, batch: seq<Message>) {
    && (forall i, j :: 0 <= i < j < |entries| ==> entries[i].0 != entries[j].0)
    && (forall i :: 0 <= i < |entries| ==>
          entries[i].0 in Latest(batch) && entries[i].1 == Latest(batch)[entries[i].0] + 1)
    && (forall p :: p in Latest(batch) ==> exists i :: 0 <= i < |entries| && entries[i].0 == p)
  }

  /** The loop of `commitOffsets` over the batch, filling a map in insertion order. */
  method CommitEntries(batch: seq<Message>) returns (entries: seq<(nat, nat)>)
    ensures CommitsExactly(entries, batch)
  {
    var highest: map<nat, nat> := map[];
    var order: seq<nat> := [];
    for k := 0 to |batch|
      invariant highest == Latest(batch[..k])
      invariant forall p :: p in highest <==> p in order
      invariant forall i, j :: 0 <= i < j < |order| ==> order[i] != order[j]
    {
      assert batch[..k + 1][..k] == batch[..k];
      var m := batch[k];
      if m.partition !in highest || highest[m.partition] < m.offset {
        if m.partition !in highest {
          order := order + [m.partition];
        }
        highest := highest[m.partition := m.offset];
      }
    }
    assert batch[..|batch|] == batch;
    entries := seq(|order|, i requires 0 <= i < |order| && order[i] in highest => (order[i], highest[order[i]] + 1));
    forall p | p in Latest(batch)
      ensures exists i :: 0 <= i < |entries| && entries[i].0 == p
    {
      var i :| 0 <= i < |order| && order[i] == p;
      assert entries[i].0 == p;
    }
  }

  class OrderService {
    const repo: OrderRepository
    const consumer: KafkaConsumer
    var buffer: seq<Message>
    var flushing: bool
    /** The record of this process: its flushes, what it was handed, and what became of its batches. */
    var flushes: seq<O.Flush>
    var received: seq<Message>
    var settled: seq<Settled>
    var dropped: set<Key>

    constructor (repo: OrderRepository, consumer: KafkaConsumer)
      requires |consumer.committed| == |consumer.position| == |consumer.logs|
      requires forall p :: 0 <= p < |consumer.logs| ==>
                 consumer.committed[p] <= consumer.position[p] <= |consumer.logs[p]|
      ensures this.repo == repo && this.consumer == consumer
      ensures buffer == [] && !flushing && flushes == [] && received == [] && settled == [] && dropped == {}
      ensures O.Inv(View())
    {
      this.repo, this.consumer := repo, consumer;
      buffer, flushing, flushes := [], false, [];
      received, settled, dropped := [], [], {};
    }

    function Base(): State
      reads this, repo, consumer
    {
      State(consumer.logs, consumer.committed, repo.rows, consumer.position, buffer, Idle, received, settled, dropped)
    }

    function View(): O.State
      reads this, repo, consumer
    {
      O.State(Base(), flushes, flushing)
    }

    /** What other flushes, the broker and a shutdown do during an await. */
    method Interfere(labels: seq<O.Label>)
      requires O.Inv(View())
      modifies this, repo, consumer
      ensures View() == O.Exec(old(View()), labels) && O.Inv(View())
    {
      O.ExecKeepsInv(View(), labels);
      var s := O.Exec(View(), labels);
      consumer.logs, consumer.committed, consumer.position := s.base.logs, s.base.committed, s.base.position;
      repo.rows := s.base.rows;
      buffer, received, settled, dropped := s.base.buffer, s.base.received, s.base.settled, s.base.dropped;
      flushes, flushing := s.flushes, s.flushing;
    }

    method CommitOffsets(batch: seq<Message>, fault: Fault) returns (ok: bool)
      requires forall i :: 0 <= i < |batch| ==> batch[i].partition < |consumer.committed|
      modifies consumer`committed
      ensures ok == fault.NoFault?
      ensures consumer.committed ==
              if fault.Refused? then old(consumer.committed) else CommitAll(old(consumer.committed), Latest(batch))
    {
      var entries := CommitEntries(batch);
      LatestIsMaximum(batch);
      ok := consumer.Commit(entries, fault);
      if !fault.Refused? {
        forall p | 0 <= p < |consumer.committed|
          ensures consumer.committed[p] == CommitAll(old(consumer.committed), Latest(batch))[p]
        {
          if p in Latest(batch) {
            var i :| 0 <= i < |entries| && entries[i].0 == p;
          }
        }
      }
    }

    /** `await this.repo.save(orders)` */
    method SaveOnce(i: nat, batch: seq<Message>, attempt: nat, persisted: bool, fault: Fault) returns (ok: bool)
      requires i < |flushes| && flushes[i].flight == Saving(batch, attempt, persisted) && attempt <= MAX_RETRIES
      modifies this`flushes, repo
      ensures View() == O.Do(old(View()), O.Of(i, SaveBatch(fault))) && i < |flushes|
      ensures flushes[i].flight == if ok then Committing(batch, attempt) else Saving(batch, attempt + 1, persisted)
    {
      ok := repo.SaveOrders(batch, persisted, fault);
      var flight := if ok then Committing(batch, attempt) else Saving(batch, attempt + 1, persisted);
      flushes := flushes[i := flushes[i].(flight := flight)];
    }

    /** `await this.commitOffsets(batch)`, and the splice when it does not throw. */
    method CommitOnce(i: nat, batch: seq<Message>, attempt: nat, fault: Fault) returns (done: bool)
      requires i < |flushes| && flushes[i].flight == Committing(batch, attempt)
      requires forall k :: 0 <= k < |batch| ==> batch[k].partition < |consumer.committed|
      modifies this, consumer`committed
      ensures View() == O.Do(old(View()), O.Of(i, CommitBatch(fault))) && i < |flushes|
      ensures flushes[i].flight == if done then Idle else Saving(batch, attempt + 1, true)
    {
      O.CommitIs(View(), i, fault);
      done := CommitOffsets(batch, fault);
      if done {
        buffer := Splice(buffer, |batch|);
        flushing := false;
        settled := settled + [Completed(batch)];
      }
      flushes := flushes[i := flushes[i].(flight := if done then Idle else Saving(batch, attempt + 1, true))];
    }

    /** The end of `flush`: no commit, the batch just leaves the buffer. */
    method DeadLetter(i: nat, batch: seq<Message>)
      requires i < |flushes| && flushes[i].flight.Saving? && MAX_RETRIES < flushes[i].flight.attempt
      requires flushes[i].flight.batch == batch
      modifies this
      ensures View() == O.Do(old(View()), O.Of(i, GiveUp)) && !flushing
    {
      buffer := Splice(buffer, |batch|);
      flushing := false;
      settled := settled + [DeadLettered(batch)];
      dropped := dropped + BatchKeys(batch);
      flushes := flushes[i := flushes[i].(flight := Idle)];
    }

    method AwaitSave(i: nat, batch: seq<Message>, attempt: nat, persisted: bool, others: seq<O.Label>, fault: Fault)
      returns (ok: bool)
      requires O.Inv(View()) && Elsewhere(others, i) && attempt <= MAX_RETRIES
      requires i < |flushes| && flushes[i].flight == Saving(batch, attempt, persisted)
      modifies this, repo, consumer
      ensures O.Inv(View()) && i < |flushes|
      ensures View() == O.Do(O.Exec(old(View()), others), O.Of(i, SaveBatch(fault)))
      ensures flushes[i].flight == if ok then Committing(batch, attempt) else Saving(batch, attempt + 1, persisted)
    {
      ElsewhereKeepsFlush(View(), others, i);
      Interfere(others);
      O.StepKeepsInv(View(), O.Of(i, SaveBatch(fault)));
      ok := SaveOnce(i, batch, attempt, persisted, fault);
    }

    method AwaitCommit(i: nat, batch: seq<Message>, attempt: nat, others: seq<O.Label>, fault: Fault)
      returns (done: bool)
      requires O.Inv(View()) && Elsewhere(others, i)
      requires i < |flushes| && flushes[i].flight == Committing(batch, attempt)
      modifies this, repo, consumer
      ensures O.Inv(View()) && i < |flushes|
      ensures View() == O.Do(O.Exec(old(View()), others), O.Of(i, CommitBatch(fault)))
      ensures flushes[i].flight == if done then Idle else Saving(batch, attempt + 1, true)
    {
      ElsewhereKeepsFlush(View(), others, i);
      Interfere(others);
      O.BatchHasPartitions(View(), i);
      O.StepKeepsInv(View(), O.Of(i, CommitBatch(fault)));
      done := CommitOnce(i, batch, attempt, fault);
    }

    /** One pass of the retry loop: save, commit, and on success the splice; otherwise the back-off. */
    method TryOnce(i: nat, batch: seq<Message>, attempt: nat, persisted: bool, a: Attempt)
      returns (done: bool, saved: bool)
      requires O.Inv(View()) && attempt <= MAX_RETRIES
      requires Elsewhere(a.duringSave, i) && Elsewhere(a.duringCommit, i) && Elsewhere(a.duringBackoff, i)
      requires i < |flushes| && flushes[i].flight == Saving(batch, attempt, persisted)
      modifies this, repo, consumer
      ensures O.Inv(View()) && i < |flushes|
      ensures View() == Attempted(old(View()), i, a)
      ensures flushes[i].flight == if done then Idle else Saving(batch, attempt + 1, saved)
    {
      done, saved := false, persisted;
      var ok := AwaitSave(i, batch, attempt, persisted, a.duringSave, a.save);
      if ok {
        saved := true;
        done := AwaitCommit(i, batch, attempt, a.duringCommit, a.commit);
        if done {
          return;
        }
      }
      ElsewhereKeepsFlush(View(), a.duringBackoff, i);
      Interfere(a.duringBackoff);
    }

    /** The first lines of `flush`: raise the flag and capture a prefix of the buffer. */
    method Capture() returns (batch: seq<Message>)
      requires O.Inv(View()) && buffer != []
      modifies this`flushing, this`flushes
      ensures View() == O.Do(old(View()), O.Env(Shutdown)) && O.Inv(View())
      ensures |flushes| == |old(flushes)| + 1 && flushes[|flushes| - 1].flight == Saving(batch, 1, false)
    {
      O.StepKeepsInv(View(), O.Env(Shutdown));
      flushing := true;
      batch := buffer[..Min(BATCH_SIZE, |buffer|)];
      flushes := flushes + [O.Flush(Saving(batch, 1, false), |received| - |buffer|)];
    }

    /** The retry loop, and the dead letter when it runs out. */
    method Retry(i: nat, batch: seq<Message>, script: seq<Attempt>)
      requires O.Inv(View()) && ValidScript(script, i)
      requires i < |flushes| && flushes[i].flight == Saving(batch, 1, false)
      modifies this, repo, consumer
      ensures View() == Flushed(old(View()), i, script) && O.Inv(View())
    {
      var persisted := false;
      for attempt := 1 to MAX_RETRIES + 1
        invariant O.Inv(View()) && i < |flushes| && flushes[i].flight == Saving(batch, attempt, persisted)
        invariant View() == Attempts(old(View()), i, script, attempt - 1)
      {
        var done;
        done, persisted := TryOnce(i, batch, attempt, persisted, script[attempt - 1]);
        if done {
          CompletedFlush(old(View()), i, script, attempt);
          return;
        }
      }
      O.StepKeepsInv(View(), O.Of(i, GiveUp));
      DeadLetter(i, batch);
    }

    /** The flush in terms of the step system. */
    method CaptureAndRetry(script: seq<Attempt>)
      requires O.Inv(View()) && buffer != [] && ValidScript(script, |flushes|)
      modifies this, repo, consumer
      ensures O.Inv(View())
      ensures View() == Flushed(O.Do(old(View()), O.Env(Shutdown)), old(|flushes|), script)
    {
      var i := |flushes|;
      var batch := Capture();
      Retry(i, batch, script);
    }

    /** Save and commit the first events of the buffer, with up to five attempts; nothing is asked of `flushing`. */
    method Flush(script: seq<Attempt>)
      requires O.Inv(View()) && buffer != [] && ValidScript(script, |flushes|)
      modifies this, repo, consumer
      ensures O.Inv(View())
      ensures View() == Flushed(O.Do(old(View()), O.Env(Shutdown)), old(|flushes|), script)
      // meeting nobody: up to four refusals, then the first three events are stored and committed
      ensures forall k :: 0 <= k < 5 && RefusedFirst(script, k) && Clean(script[k])
                          && AllNew(old(repo.rows), FirstThree(old(buffer))) ==>
                            !flushing && Stored(old(Base()), Base())
      // and after five they are only dropped
      ensures RefusedFirst(script, 5) ==> !flushing && Lost(old(Base()), Base())
    {
      ghost var before := View();
      CaptureAndRetry(script);
      forall k | 0 <= k <= 5 && RefusedFirst(script, k)
                 && (k < 5 ==> Clean(script[k]) && AllNew(before.base.rows, FirstThree(before.base.buffer)))
        ensures !flushing && if k < 5 then Stored(before.base, Base()) else Lost(before.base, Base())
      {
        UndisturbedFlush(before, script, k);
      }
    }

    /** `this.buffer.push(...)` with the next event of partition `p`. */
    method Push(p: nat)
      requires O.Inv(View()) && consumer.HasNext(p)
      modifies this`buffer, this`received, consumer`position
      ensures View() == O.Pushed(old(View()), p) && O.Inv(View())
    {
      O.PushKeepsInv(View(), p);
      var m := consumer.Next(p);
      buffer := buffer + [m];
      received := received + [m];
    }

    /** `createFromEvent` in terms of the step system. */
    method PushAndFlush(p: nat, script: seq<Attempt>)
      requires O.Inv(View()) && consumer.HasNext(p) && ValidScript(script, |flushes|)
      modifies this, repo, consumer
      ensures O.Inv(View()) && View() == Created(old(View()), p, script)
    {
      O.DeliverIsPush(View(), p);
      Push(p);
      if BATCH_SIZE <= |buffer| && !flushing {
        Flush(script);
      }
    }

    /** Buffer the next event of partition `p`, and flush once three are waiting and `flushing` is false. */
    method CreateFromEvent(p: nat, script: seq<Attempt>)
      requires O.Inv(View()) && consumer.HasNext(p) && ValidScript(script, |flushes|)
      modifies this, repo, consumer
      ensures O.Inv(View()) && View() == Created(old(View()), p, script)
      // with fewer than three buffered, or the flag up, only the push
      ensures var waiting := old(buffer) + [old(consumer.NextMessage(p))];
              |waiting| < 3 || old(flushing) ==>
                && flushing == old(flushing) && buffer == waiting
                && repo.rows == old(repo.rows) && consumer.committed == old(consumer.committed)
      // otherwise, meeting nobody and no fault, the first three are stored and committed
      ensures var waiting := old(buffer) + [old(consumer.NextMessage(p))];
              3 <= |waiting| && !old(flushing) && Clean(script[0]) && AllNew(old(repo.rows), waiting[..3]) ==>
                && !flushing && buffer == waiting[3..] && repo.rows == old(repo.rows) + Rows(waiting[..3])
                && CommittedPast(old(consumer.committed), waiting[..3], consumer.committed)
    {
      UndisturbedDelivery(View(), p, script);
      PushAndFlush(p, script);
    }

    /** Flush what is left, whether or not a flush is running. */
    method OnModuleDestroy(script: seq<Attempt>)
      requires O.Inv(View()) && ValidScript(script, |flushes|)
      modifies this, repo, consumer
      ensures O.Inv(View())
      ensures View() == if old(buffer) == [] then old(View())
                        else Flushed(O.Do(old(View()), O.Env(Shutdown)), old(|flushes|), script)
      ensures forall k :: 0 <= k < 5 && old(buffer) != [] && RefusedFirst(script, k) && Clean(script[k])
                          && AllNew(old(repo.rows), FirstThree(old(buffer))) ==>
                            !flushing && Stored(old(Base()), Base())
      ensures old(buffer) != [] && RefusedFirst(script, 5) ==> !flushing && Lost(old(Base()), Base())
    {
      if 0 < |buffer| {
        Flush(script);
      }
    }
  }
}
