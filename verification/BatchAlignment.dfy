/**
  Why a replayed batch is all old or all new: with one partition, no shutdown flush of a partial batch, and no
  fresh batch running out of retries, the table is always a prefix of the log and every batch starts on the
  same boundaries as before the crash (order-consumer/src/orders/order.service.ts:31-88).
 */
module BatchAlignment {
  import opened Common
  import opened OrderConsumer
  import opened ConsumerSafety

  /** No row of the batch exists yet. */
  predicate Fresh(s: State, batch: seq<Message>) {
    forall i :: 0 <= i < |batch| ==> MessageKey(batch[i]) !in Keys(s.rows)
  }

  /** The run never flushes on shutdown and never gives up on a fresh batch. */
  predicate Orderly(s: State, labels: seq<Label>) {
    labels == [] ||
    var init := labels[..|labels| - 1];
    var last := labels[|labels| - 1];
    && Orderly(s, init)
    && !last.Shutdown?
    && (last.GiveUp? && Enabled(Exec(s, init), GiveUp) ==> !Fresh(Exec(s, init), Exec(s, init).flight.batch))
  }

  /** Offset of the first buffered event. */
  function Front(s: State): int
    requires |s.position| == 1
  {
    s.position[0] - |s.buffer|
  }

  predicate OnePartition(s: State) {
    |s.logs| == |s.committed| == |s.position| == 1
  }

  predicate Aligned(s: State) {
    && OnePartition(s)
    && (forall i :: 0 <= i < |s.rows| ==> RowKey(s.rows[i]) == Key(0, i))
    && 0 <= Front(s) <= |s.rows|
    && (forall i :: 0 <= i < |s.buffer| ==> MessageKey(s.buffer[i]) == Key(0, Front(s) + i))
    && s.committed[0] <= |s.rows|
    && (|s.rows| - s.committed[0]) % BATCH_SIZE == 0
    && (|s.rows| - Front(s)) % BATCH_SIZE == 0
    && (!s.flight.Idle? ==>
          && |s.flight.batch| == BATCH_SIZE
          && s.flight.batch <= s.buffer
          && (Persisted(s.flight) ==> Front(s) + BATCH_SIZE <= |s.rows|))
  }

  /** The rows are exactly the offsets below their number. */
  lemma RowsArePrefix(s: State)
    requires Aligned(s)
    ensures forall p, o: nat :: Key(p, o) in Keys(s.rows) <==> p == 0 && o < |s.rows|
  {
    forall p, o: nat
      ensures Key(p, o) in Keys(s.rows) <==> p == 0 && o < |s.rows|
    {
      if p == 0 && o < |s.rows| {
        assert s.rows[o] in s.rows && RowKey(s.rows[o]) == Key(0, o);
      }
      if Key(p, o) in Keys(s.rows) {
        var i :| 0 <= i < |s.rows| && RowKey(s.rows[i]) == Key(p, o);
      }
    }
  }

  /** A captured batch is either wholly saved, or wholly new and next in line. */
  lemma BatchIsWhole(s: State)
    requires Aligned(s) && !s.flight.Idle?
    ensures if Front(s) < |s.rows| then BatchKeys(s.flight.batch) <= Keys(s.rows) && Clashes(s.rows, s.flight.batch)
            else Fresh(s, s.flight.batch) && !Clashes(s.rows, s.flight.batch)
  {
    RowsArePrefix(s);
    var batch := s.flight.batch;
    assert forall i :: 0 <= i < |batch| ==> batch[i] == s.buffer[i] && MessageKey(batch[i]) == Key(0, Front(s) + i);
    assert Front(s) < |s.rows| ==> MessageKey(batch[0]) in Keys(s.rows);
  }

  lemma DeliverKeepsAligned(s: State, p: nat)
    requires Aligned(s) && Enabled(s, Deliver(p))
    ensures Aligned(DoDeliver(s, p))
  {
    var t := DoDeliver(s, p);
    assert Front(t) == Front(s);
    forall i | 0 <= i < |t.buffer|
      ensures MessageKey(t.buffer[i]) == Key(0, Front(t) + i)
    {
      if i < |s.buffer| {
        assert t.buffer[i] == s.buffer[i];
      }
    }
  }

  /** Inserting a wholly new batch extends the prefix by one batch. */
  lemma InsertKeepsPrefix(s: State)
    requires Aligned(s) && s.flight.Saving? && Front(s) == |s.rows|
    ensures var rows := s.rows + Rows(s.flight.batch);
            |rows| == |s.rows| + BATCH_SIZE && forall i :: 0 <= i < |rows| ==> RowKey(rows[i]) == Key(0, i)
  {
    var batch := s.flight.batch;
    var rows := s.rows + Rows(batch);
    forall i | |s.rows| <= i < |rows|
      ensures RowKey(rows[i]) == Key(0, i)
    {
      assert rows[i] == ToRow(batch[i - |s.rows|]) && batch[i - |s.rows|] == s.buffer[i - |s.rows|];
    }
  }

  /** A save that inserts nothing changes only the flight. */
  lemma ReflightKeepsAligned(s: State, f: Flight)
    requires Aligned(s) && !s.flight.Idle? && !f.Idle? && f.batch == s.flight.batch
    requires Persisted(f) ==> Front(s) + BATCH_SIZE <= |s.rows|
    ensures Aligned(s.(flight := f))
  {
  }

  lemma InsertKeepsAligned(s: State, t: State)
    requires Aligned(s) && s.flight.Saving? && Front(s) == |s.rows|
    requires !t.flight.Idle? && t.flight.batch == s.flight.batch
    requires t == s.(rows := s.rows + Rows(s.flight.batch), flight := t.flight)
    ensures Aligned(t)
  {
    InsertKeepsPrefix(s);
  }

  lemma SaveKeepsAligned(s: State, fault: Fault)
    requires Aligned(s) && s.flight.Saving?
    ensures Aligned(DoSave(s, fault))
  {
    var t := DoSave(s, fault);
    BatchIsWhole(s);
    if t.rows == s.rows {
      ReflightKeepsAligned(s, t.flight);
    } else {
      InsertKeepsAligned(s, t);
    }
  }

  lemma SettleKeepsAligned(s: State, t: State)
    requires Aligned(s) && !s.flight.Idle? && OnePartition(t)
    requires t.rows == s.rows && t.position == s.position && t.flight == Idle
    requires t.buffer == Splice(s.buffer, |s.flight.batch|)
    requires t.committed[0] <= |t.rows| && (|t.rows| - t.committed[0]) % BATCH_SIZE == 0
    requires Front(s) + BATCH_SIZE <= |s.rows|
    ensures Aligned(t)
  {
    assert Front(t) == Front(s) + BATCH_SIZE;
    assert forall i :: 0 <= i < |t.buffer| ==> t.buffer[i] == s.buffer[i + BATCH_SIZE];
  }

  lemma CommitAligned(s: State)
    requires Aligned(s) && s.flight.Committing?
    ensures CommitAll(s.committed, Latest(s.flight.batch)) == [Front(s) + BATCH_SIZE]
  {
    var batch := s.flight.batch;
    LatestIsMaximum(batch);
    assert forall i :: 0 <= i < |batch| ==> batch[i] == s.buffer[i] && MessageKey(batch[i]) == Key(0, Front(s) + i);
    assert batch[2].partition == 0 && batch[2].offset == Front(s) + 2;
  }

  lemma CommitKeepsAligned(s: State, fault: Fault)
    requires Aligned(s) && s.flight.Committing?
    ensures Aligned(DoCommit(s, fault))
  {
    CommitAligned(s);
    if fault.NoFault? {
      SettleKeepsAligned(s, DoCommit(s, fault));
    }
  }

  lemma GiveUpKeepsAligned(s: State)
    requires Aligned(s) && Enabled(s, GiveUp) && !Fresh(s, s.flight.batch)
    ensures Aligned(DoGiveUp(s)) && DoGiveUp(s).dropped <= s.dropped + Keys(s.rows)
  {
    BatchIsWhole(s);
    SettleKeepsAligned(s, DoGiveUp(s));
  }

  lemma StepKeepsAligned(s: State, l: Label)
    requires Aligned(s) && !l.Shutdown?
    requires l.GiveUp? && Enabled(s, GiveUp) ==> !Fresh(s, s.flight.batch)
    ensures Aligned(Do(s, l))
  {
    if Enabled(s, l) {
      match l
      case Produce(_, _) =>
      case Deliver(p) => DeliverKeepsAligned(s, p);
      case SaveBatch(fault) => SaveKeepsAligned(s, fault);
      case CommitBatch(fault) => CommitKeepsAligned(s, fault);
      case GiveUp => GiveUpKeepsAligned(s);
      case Crash =>
    }
  }

  lemma StepDropsOnlySaved(s: State, l: Label)
    requires Aligned(s) && s.dropped <= Keys(s.rows) && !l.Shutdown?
    requires l.GiveUp? && Enabled(s, GiveUp) ==> !Fresh(s, s.flight.batch)
    ensures Do(s, l).dropped <= Keys(Do(s, l).rows)
  {
    if Enabled(s, l) {
      if l.GiveUp? {
        GiveUpKeepsAligned(s);
      } else if l.SaveBatch? {
        KeysAppend(s.rows, Rows(s.flight.batch));
      }
    }
  }

  lemma {:induction false} OrderlyRunAligned(labels: seq<Label>)
    requires Orderly(Init(1), labels)
    ensures Aligned(Exec(Init(1), labels))
    ensures Exec(Init(1), labels).dropped <= Keys(Exec(Init(1), labels).rows)
  {
    if labels == [] {
    } else {
      var init := labels[..|labels| - 1];
      OrderlyRunAligned(init);
      StepKeepsAligned(Exec(Init(1), init), labels[|labels| - 1]);
      StepDropsOnlySaved(Exec(Init(1), init), labels[|labels| - 1]);
    }
  }

  /**
    In every orderly run, with any crashes and faults: the saved offsets are exactly [0, s), the committed offset
    lags by a whole number of batches, a running batch is wholly saved or wholly new, only saved batches are
    dead-lettered, and every offset below the committed one is saved.
   */
  lemma OrderlyRunsLoseNothing(labels: seq<Label>)
    requires Orderly(Init(1), labels)
    ensures var s := Exec(Init(1), labels);
            && (forall p, o: nat :: Key(p, o) in Keys(s.rows) <==> p == 0 && o < |s.rows|)
            && |s.committed| == 1 && s.committed[0] <= |s.rows| && (|s.rows| - s.committed[0]) % BATCH_SIZE == 0
            && (!s.flight.Idle? ==> BatchKeys(s.flight.batch) <= Keys(s.rows) || Fresh(s, s.flight.batch))
            && s.dropped <= Keys(s.rows)
  {
    OrderlyRunAligned(labels);
    var s := Exec(Init(1), labels);
    RowsArePrefix(s);
    if !s.flight.Idle? {
      BatchIsWhole(s);
    }
  }

  // -------------------------------------------------------- mixed batches

  /** Some events of the batch are saved and some are not. */
  predicate Mixed(s: State, batch: seq<Message>) {
    && (exists i :: 0 <= i < |batch| && MessageKey(batch[i]) in Keys(s.rows))
    && (exists i :: 0 <= i < |batch| && MessageKey(batch[i]) !in Keys(s.rows))
  }

  /**
    In every run, a fresh flush of a batch can save anything exactly when the batch is wholly new; a mixed batch is
    refused on every attempt, so its unsaved events are left behind.
   */
  lemma FirstSaveNeedsWhollyNewBatch(partitions: nat, labels: seq<Label>, fault: Fault)
    requires var s := Exec(Init(partitions), labels);
             Enabled(s, SaveBatch(fault)) && !s.flight.persisted
    ensures var s := Exec(Init(partitions), labels);
            var t := Do(s, SaveBatch(fault));
            && (t.rows != s.rows <==> !fault.Refused? && Fresh(s, s.flight.batch))
            && (Mixed(s, s.flight.batch) ==> t == s.(flight := Saving(s.flight.batch, s.flight.attempt + 1, false)))
  {
    RunBatchDistinct(partitions, labels);
    FirstSave(Exec(Init(partitions), labels), fault);
  }

  predicate DistinctBatch(batch: seq<Message>) {
    batch != [] && forall i, j :: 0 <= i < j < |batch| ==> MessageKey(batch[i]) != MessageKey(batch[j])
  }

  lemma RunBatchDistinct(partitions: nat, labels: seq<Label>)
    requires !Exec(Init(partitions), labels).flight.Idle?
    ensures DistinctBatch(Exec(Init(partitions), labels).flight.batch)
  {
    RunInv(partitions, labels);
    var s := Exec(Init(partitions), labels);
    assert forall i :: 0 <= i < |s.flight.batch| ==> s.flight.batch[i] == s.buffer[i];
  }

  lemma FirstSave(s: State, fault: Fault)
    requires Enabled(s, SaveBatch(fault)) && !s.flight.persisted && DistinctBatch(s.flight.batch)
    ensures var t := Do(s, SaveBatch(fault));
            && (t.rows != s.rows <==> !fault.Refused? && Fresh(s, s.flight.batch))
            && (Mixed(s, s.flight.batch) ==> t == s.(flight := Saving(s.flight.batch, s.flight.attempt + 1, false)))
  {
    assert Clashes(s.rows, s.flight.batch) <==> !Fresh(s, s.flight.batch);
  }

  /** A run of saves by one flush, each with its own fault. */
  function SaveAll(faults: seq<Fault>): seq<Label> {
    if faults == [] then [] else SaveAll(faults[..|faults| - 1]) + [SaveBatch(faults[|faults| - 1])]
  }

  lemma MixedSaveFails(s: State, fault: Fault)
    requires Enabled(s, SaveBatch(fault)) && !s.flight.persisted && Mixed(s, s.flight.batch)
    ensures Do(s, SaveBatch(fault)) == s.(flight := Saving(s.flight.batch, s.flight.attempt + 1, false))
  {
    var i :| 0 <= i < |s.flight.batch| && MessageKey(s.flight.batch[i]) in Keys(s.rows);
    assert Clashes(s.rows, s.flight.batch);
  }

  lemma {:induction false} MixedSavesFail(s: State, faults: seq<Fault>)
    requires s.flight.Saving? && s.flight.attempt == 1 && !s.flight.persisted && Mixed(s, s.flight.batch)
    requires |faults| <= MAX_RETRIES
    ensures Exec(s, SaveAll(faults)) == s.(flight := Saving(s.flight.batch, 1 + |faults|, false))
  {
    if faults == [] {
    } else {
      var n := |faults| - 1;
      MixedSavesFail(s, faults[..n]);
      MixedSaveFails(Exec(s, SaveAll(faults[..n])), faults[n]);
      ExecStep(s, SaveAll(faults[..n]), SaveBatch(faults[n]));
    }
  }

  /** However its five saves turn out, a mixed batch is given up, its unsaved events with it. */
  lemma MixedBatchIsGivenUp(s: State, faults: seq<Fault>)
    requires s.flight.Saving? && s.flight.attempt == 1 && !s.flight.persisted && Mixed(s, s.flight.batch)
    requires |faults| == MAX_RETRIES
    ensures Exec(s, SaveAll(faults) + [GiveUp]) == DoGiveUp(s)
  {
    MixedSavesFail(s, faults);
    ExecStep(s, SaveAll(faults), GiveUp);
  }

  /** One event arrives, a shutdown saves it, and the process is killed before the commit. */
  function Killed(s: State): State {
    Do(Do(Do(Do(s, Deliver(0)), Shutdown), SaveBatch(NoFault)), Crash)
  }

  predicate AboutToShutDown(s: State) {
    && Aligned(s) && s.flight.Idle? && s.buffer == [] && s.committed[0] == s.position[0] == |s.rows|
    && s.position[0] + 3 <= |s.logs[0]|
  }

  lemma KilledIs(s: State)
    requires AboutToShutDown(s)
    ensures var m := Message(0, s.position[0], s.logs[0][s.position[0]]);
            Killed(s) == s.(rows := s.rows + Rows([m]), received := [], settled := [])
  {
    var m := Message(0, s.position[0], s.logs[0][s.position[0]]);
    var s1 := Do(s, Deliver(0));
    assert s1.buffer == [m];
    var s2 := Do(s1, Shutdown);
    assert s2.flight == Saving([m], 1, false) by {
      assert [m][..Min(BATCH_SIZE, 1)] == [m];
    }
    RowsArePrefix(s);
    assert !Clashes(s2.rows, [m]);
    assert s.committed == s.position;
  }

  lemma OneMoreKey(s: State, m: Message)
    requires Aligned(s) && MessageKey(m) == Key(0, |s.rows|)
    ensures forall k: nat :: Key(0, k) in Keys(s.rows + Rows([m])) <==> k <= |s.rows|
  {
    RowsArePrefix(s);
    KeysAppend(s.rows, Rows([m]));
    KeysOfRows([m]);
    assert m in [m] && BatchKeys([m]) == {Key(0, |s.rows|)};
  }

  /** A shutdown that flushes a single event, killed before its commit, makes the next batch mixed. */
  lemma NextBatchIsMixed(s: State)
    requires AboutToShutDown(s)
    ensures var o := s.position[0];
            var t := Exec(Killed(s), Deliveries(0));
            && t.rows == Killed(s).rows && t.dropped == s.dropped
            && t.flight == Saving(NextBatch(s, 0), 1, false) && t.buffer == NextBatch(s, 0)
            && (forall k: nat :: Key(0, k) in Keys(t.rows) <==> k <= o)
            && Mixed(t, t.flight.batch)
  {
    var o := s.position[0];
    var m := Message(0, o, s.logs[0][o]);
    KilledIs(s);
    DeliverBatch(Killed(s), 0);
    ThreeDeliveries(Killed(s), 0);
    var t := Exec(Killed(s), Deliveries(0));
    OneMoreKey(s, m);
    assert MessageKey(t.flight.batch[0]) == Key(0, o) && MessageKey(t.flight.batch[1]) == Key(0, o + 1);
  }

  /**
    Even where nothing fails, such a shutdown costs two events: after the restart the next batch is mixed, all five
    saves are refused whatever the database does, and the two events behind the saved one are dead-lettered without
    a row.
   */
  lemma PartialFlushMakesMixedBatch(s: State, faults: seq<Fault>)
    requires AboutToShutDown(s) && |faults| == MAX_RETRIES
    ensures var o := s.position[0];
            var next := Exec(Killed(s), Deliveries(0));
            var t := Exec(next, SaveAll(faults) + [GiveUp]);
            && next.flight.Saving? && Mixed(next, next.flight.batch)
            && t.flight.Idle? && t.buffer == [] && t.rows == next.rows
            && (forall k :: o < k < o + 3 ==> Key(0, k) in t.dropped && Key(0, k) !in Keys(t.rows))
  {
    var o := s.position[0];
    var next := Exec(Killed(s), Deliveries(0));
    NextBatchIsMixed(s);
    MixedBatchIsGivenUp(next, faults);
    var batch := NextBatch(s, 0);
    forall k | o < k < o + 3
      ensures Key(0, k) in BatchKeys(batch)
    {
      assert MessageKey(batch[k - o]) == Key(0, k);
    }
  }

  /** It can happen to the first batch of all. */
  lemma FirstBatchCanBeCut(event: Event)
    ensures AboutToShutDown(Exec(Init(1), Produces(0, event, 3)))
  {
    ProducesFill(1, 0, event, 3);
  }
}
