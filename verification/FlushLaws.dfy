/**
  A flush in numbers (order-consumer/src/orders/order.service.ts:7-9, 28-88): when one begins, what it takes, how often
  it tries, and what it leaves behind; stated of every run in which any number of flushes may overlap.
 */
module FlushLaws {
  import opened Common
  import opened OverlappingFlushes
  import C = OrderConsumer

  /** The first three events, or all of them when there are fewer. */
  function FirstThree(buffer: seq<C.Message>): seq<C.Message> {
    if |buffer| < 3 then buffer else buffer[..3]
  }

  function Rest(buffer: seq<C.Message>): seq<C.Message> {
    if |buffer| < 3 then [] else buffer[3..]
  }

  // --------------------------------------------------- when a flush begins

  /** A delivery pushes its event, and begins a flush exactly when that makes three or more and no flag is up. */
  lemma DeliveryBeginsIff(s: State, p: nat)
    requires s.base.flight.Idle? && Enabled(s, Env(C.Deliver(p)))
    ensures var t := Do(s, Env(C.Deliver(p)));
            && t.base.buffer == s.base.buffer + [C.Message(p, s.base.position[p], s.base.logs[p][s.base.position[p]])]
            && (t.flushes != s.flushes <==> !s.flushing && 3 <= |t.base.buffer|)
            && t.flushing == (s.flushing || 3 <= |t.base.buffer|)
  {
  }

  /** A shutdown begins a flush exactly when something is buffered, and changes nothing else. */
  lemma ShutdownBeginsIff(s: State)
    requires s.base.flight.Idle?
    ensures var t := Do(s, Env(C.Shutdown));
            && t.base == s.base
            && (t.flushes != s.flushes <==> s.base.buffer != [])
            && t.flushing == (s.flushing || s.base.buffer != [])
  {
  }

  /** No other step begins one, and whichever does captures the first three events of the buffer, or all of it. */
  lemma CaptureTakesThree(s: State, l: Label)
    requires s.base.flight.Idle?
    ensures var t := Do(s, l);
            |s.flushes| < |t.flushes| ==>
              && l.Env? && (l.step.Deliver? || l.step.Shutdown?) && |t.flushes| == |s.flushes| + 1
              && t.flushes[|s.flushes|].flight == C.Saving(FirstThree(t.base.buffer), 1, false)
  {
    if l.Env? && Enabled(s, l) && (l.step.Deliver? || l.step.Shutdown?) {
      var buffer := Do(s, l).base.buffer;
      if |buffer| < 3 {
        assert buffer[..Min(C.BATCH_SIZE, |buffer|)] == buffer;
      }
    }
  }

  /** Flush `i` was begun by label `n` and holds what that step found buffered first. */
  ghost predicate CapturedBy(s: State, labels: seq<Label>, n: nat, i: nat, batch: seq<C.Message>)
    requires n < |labels|
  {
    var t := Exec(s, labels[..n + 1]);
    |t.flushes| == i + 1 && batch == FirstThree(t.base.buffer)
  }

  /** In every run each running flush holds three events, or all that were buffered when it began. */
  lemma {:induction false} EveryBatchIsFull(partitions: nat, labels: seq<Label>, i: nat)
    requires var s := Exec(Init(partitions), labels); i < |s.flushes| && !s.flushes[i].flight.Idle?
    ensures var batch := Exec(Init(partitions), labels).flushes[i].flight.batch;
            exists n :: 0 <= n < |labels| && CapturedBy(Init(partitions), labels, n, i, batch)
  {
    if labels == [] {
    } else {
      var s0 := Init(partitions);
      var (init, l) := (labels[..|labels| - 1], labels[|labels| - 1]);
      var s := Exec(s0, init);
      InitInv(partitions);
      ExecKeepsInv(s0, init);
      CaptureTakesThree(s, l);
      if i < |s.flushes| {
        OlderFlush(s, l, i);
        EveryBatchIsFull(partitions, init, i);
        var n :| 0 <= n < |init| && CapturedBy(s0, init, n, i, s.flushes[i].flight.batch);
        assert labels[..n + 1] == init[..n + 1];
        assert CapturedBy(s0, labels, n, i, s.flushes[i].flight.batch);
      } else {
        assert labels[..|labels|] == labels;
        assert CapturedBy(s0, labels, |labels| - 1, i, Do(s, l).flushes[i].flight.batch);
      }
    }
  }

  lemma OlderFlush(s: State, l: Label, i: nat)
    requires i < |s.flushes| && i < |Do(s, l).flushes| && !Do(s, l).flushes[i].flight.Idle?
    ensures !s.flushes[i].flight.Idle? && Do(s, l).flushes[i].flight.batch == s.flushes[i].flight.batch
  {
  }

  // ----------------------------------------------------- how often it tries

  /** How many saves flush `i` of the present process has made. */
  function Saves(s: State, labels: seq<Label>, i: nat): nat {
    if labels == [] then 0 else
    var (init, l) := (labels[..|labels| - 1], labels[|labels| - 1]);
    if l == Env(C.Crash) then 0
    else Saves(s, init, i) + if l.Of? && l.flush == i && l.step.SaveBatch? && Enabled(Exec(s, init), l) then 1 else 0
  }

  predicate SavesMatch(s: State, i: nat, saves: nat) {
    if |s.flushes| <= i then saves == 0 else
    match s.flushes[i].flight
    case Idle => saves <= 5
    case Saving(_, attempt, _) => saves == attempt - 1 && attempt <= 6
    case Committing(_, attempt) => saves == attempt <= 5
  }

  lemma StepKeepsSaves(s: State, l: Label, i: nat, saves: nat)
    requires s.base.flight.Idle? && SavesMatch(s, i, saves)
    ensures SavesMatch(Do(s, l), i,
                       if l == Env(C.Crash) then 0
                       else saves + if l.Of? && l.flush == i && l.step.SaveBatch? && Enabled(s, l) then 1 else 0)
  {
  }

  lemma {:induction false} RunKeepsSaves(partitions: nat, labels: seq<Label>, i: nat)
    ensures SavesMatch(Exec(Init(partitions), labels), i, Saves(Init(partitions), labels, i))
  {
    if labels == [] {
    } else {
      var init := labels[..|labels| - 1];
      InitInv(partitions);
      ExecKeepsInv(Init(partitions), init);
      RunKeepsSaves(partitions, init, i);
      StepKeepsSaves(Exec(Init(partitions), init), labels[|labels| - 1], i, Saves(Init(partitions), init, i));
    }
  }

  /** In every run a flush saves at most five times, and gives up after its fifth failed attempt, no sooner. */
  lemma FiveSaves(partitions: nat, labels: seq<Label>, i: nat, fault: C.Fault)
    requires i < |Exec(Init(partitions), labels).flushes|
    ensures var s := Exec(Init(partitions), labels);
            var saves := Saves(Init(partitions), labels, i);
            && saves <= 5
            && (Enabled(s, Of(i, C.SaveBatch(fault))) <==> s.flushes[i].flight.Saving? && saves < 5)
            && (Enabled(s, Of(i, C.GiveUp)) <==> s.flushes[i].flight.Saving? && saves == 5)
  {
    RunKeepsSaves(partitions, labels, i);
  }

  /** A flush ends with a commit that is acknowledged or by giving up; a call that fails only costs an attempt. */
  lemma EndsIff(s: State, i: nat, step: C.Label)
    requires Enabled(s, Of(i, step))
    ensures var (before, after) := (s.flushes[i].flight, Do(s, Of(i, step)).flushes[i].flight);
            && (after.Idle? <==> step == C.CommitBatch(C.NoFault) || step.GiveUp?)
            && (after.Committing? <==>
                  step == C.SaveBatch(C.NoFault) && (before.persisted || !C.Clashes(s.base.rows, before.batch)))
            && (after.Saving? ==>
                  && after.batch == before.batch && after.attempt == before.attempt + 1
                  && (after.persisted <==> before.Committing? || before.persisted))
  {
  }

  // -------------------------------------------------- what it leaves behind

  /** None of the first events has a row. */
  predicate AllNew(rows: seq<C.Row>, batch: seq<C.Message>) {
    forall k :: 0 <= k < |batch| ==> C.MessageKey(batch[k]) !in C.Keys(rows)
  }

  /** Exactly the partitions of the batch are committed, each just past the furthest event of the batch on it. */
  ghost predicate CommittedPast(before: seq<nat>, batch: seq<C.Message>, after: seq<nat>) {
    && |after| == |before|
    && (forall k :: 0 <= k < |batch| && batch[k].partition < |after| ==> batch[k].offset < after[batch[k].partition])
    && (forall p :: 0 <= p < |after| ==>
          || (after[p] == before[p] && forall k :: 0 <= k < |batch| ==> batch[k].partition != p)
          || (exists k :: 0 <= k < |batch| && batch[k].partition == p && after[p] == batch[k].offset + 1))
  }

  /** The first three events are rows, committed, and out of the buffer. */
  ghost predicate Stored(a: C.State, b: C.State) {
    && b.rows == a.rows + C.Rows(FirstThree(a.buffer))
    && b.buffer == Rest(a.buffer)
    && CommittedPast(a.committed, FirstThree(a.buffer), b.committed)
    && b.dropped == a.dropped
  }

  /** The first three events are out of the buffer, and nothing else has happened to them. */
  predicate Lost(a: C.State, b: C.State) {
    && b.rows == a.rows && b.committed == a.committed
    && b.buffer == Rest(a.buffer)
    && b.dropped == a.dropped + C.BatchKeys(FirstThree(a.buffer))
  }

  lemma CommitIsPast(committed: seq<nat>, batch: seq<C.Message>)
    ensures CommittedPast(committed, batch, C.CommitAll(committed, C.Latest(batch)))
  {
    C.LatestIsMaximum(batch);
    var after := C.CommitAll(committed, C.Latest(batch));
    forall p | 0 <= p < |after| && p in C.Latest(batch)
      ensures exists k :: 0 <= k < |batch| && batch[k].partition == p && after[p] == batch[k].offset + 1
    {
      var k :| 0 <= k < |batch| && batch[k].partition == p && batch[k].offset == C.Latest(batch)[p];
    }
  }

  lemma SpliceIsRest(buffer: seq<C.Message>)
    ensures C.Splice(buffer, |FirstThree(buffer)|) == Rest(buffer)
  {
  }

  /** A captured batch that is all new does not clash. */
  lemma NewDoesNotClash(s: State, i: nat)
    requires Inv(s) && i < |s.flushes| && !s.flushes[i].flight.Idle? && AllNew(s.base.rows, s.flushes[i].flight.batch)
    ensures !C.Clashes(s.base.rows, s.flushes[i].flight.batch)
  {
    var f := s.flushes[i];
    assert Placed(s.base, f);
    assert forall k :: 0 <= k < |f.flight.batch| ==> f.flight.batch[k] == s.base.received[f.from + k];
  }
}
