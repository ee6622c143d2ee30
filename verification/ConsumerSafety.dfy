/**
  What every run of the order consumer guarantees, and exactly where its own comments promise too much.
 */
module ConsumerSafety {
  import opened Common
  import opened OrderConsumer

  lemma RunInv(partitions: nat, labels: seq<Label>)
    ensures Inv(Exec(Init(partitions), labels))
  {
    InitInv(partitions);
    ExecKeepsInv(Init(partitions), labels);
  }

  /**
    Over every run with crashes, retries, lost replies and redelivery: an offset below the committed offset is
    a row of the table or was dead-lettered.
   */
  lemma CommittedIsSavedOrDeadLettered(partitions: nat, labels: seq<Label>, p: nat, o: nat)
    requires p < |Exec(Init(partitions), labels).committed| && o < Exec(Init(partitions), labels).committed[p]
    ensures SavedOrDropped(Exec(Init(partitions), labels), Key(p, o))
  {
    RunInv(partitions, labels);
  }

  /** Whatever is neither saved nor dead-lettered is delivered again after a restart. */
  lemma UnsavedIsRedelivered(partitions: nat, labels: seq<Label>, p: nat, o: nat)
    requires p < |Exec(Init(partitions), labels).logs|
    requires !SavedOrDropped(Exec(Init(partitions), labels), Key(p, o))
    ensures var s := Exec(Init(partitions), labels);
            p < |s.committed| && s.committed[p] <= o && Do(s, Crash).position[p] <= o
  {
    RunInv(partitions, labels);
    var s := Exec(Init(partitions), labels);
    assert o < s.committed[p] ==> SavedOrDropped(s, Key(p, o));
  }

  /** At most one row per (partition, offset), and each row is the logged event of its key. */
  lemma RowsAreTheLogOnce(partitions: nat, labels: seq<Label>)
    ensures var s := Exec(Init(partitions), labels);
            && (forall i, j :: 0 <= i < j < |s.rows| ==> RowKey(s.rows[i]) != RowKey(s.rows[j]))
            && (forall i :: 0 <= i < |s.rows| ==>
                  var r := s.rows[i];
                  && r.kafkaPartition < |s.logs| && r.kafkaOffset < |s.logs[r.kafkaPartition]|
                  && Event(r.remaining, r.success, r.message, r.correlationId) ==
                     s.logs[r.kafkaPartition][r.kafkaOffset])
  {
    RunInv(partitions, labels);
    var s := Exec(Init(partitions), labels);
    assert forall i :: 0 <= i < |s.rows| ==> Faithful(s, s.rows[i]);
  }

  /** The flush running at `s` is still running before each of the steps; the last of them may end it. */
  predicate StillRunning(s: State, labels: seq<Label>) {
    labels == [] ||
    var init := labels[..|labels| - 1];
    StillRunning(s, init) && !Exec(s, init).flight.Idle?
  }

  lemma {:induction false} PersistedStaysSaved(s: State, labels: seq<Label>)
    requires Inv(s) && Persisted(s.flight) && StillRunning(s, labels)
    ensures var t := Exec(s, labels);
            && t.rows == s.rows
            && (t.flight.Idle? || (Persisted(t.flight) && t.flight.batch == s.flight.batch))
  {
    if labels == [] {
    } else {
      PersistedStaysSaved(s, labels[..|labels| - 1]);
    }
  }

  /**
    Once its save has succeeded a flush writes nothing more: a retry after a failed commit saves the same
    entities again, and through every step up to the one that ends the flush, whatever else happens, the table
    stays as it is, with the whole batch in it.
   */
  lemma PersistedFlushWritesNothingMore(partitions: nat, before: seq<Label>, after: seq<Label>)
    requires var s := Exec(Init(partitions), before); Persisted(s.flight) && StillRunning(s, after)
    ensures var s := Exec(Init(partitions), before);
            var t := Exec(s, after);
            && t.rows == s.rows
            && BatchKeys(s.flight.batch) <= Keys(t.rows)
            && (t.flight.Idle? || (Persisted(t.flight) && t.flight.batch == s.flight.batch))
  {
    RunInv(partitions, before);
    PersistedStaysSaved(Exec(Init(partitions), before), after);
  }

  lemma StepCommitsForward(s: State, l: Label)
    requires Inv(s)
    ensures |Do(s, l).committed| == |s.committed|
    ensures forall p :: 0 <= p < |s.committed| ==> s.committed[p] <= Do(s, l).committed[p]
  {
    if Enabled(s, l) && l.CommitBatch? {
      CommitKeepsSafe(s);
    }
  }

  /** Between any two points of any run, no committed offset moves backwards. */
  lemma CommittedNeverDecreases(partitions: nat, before: seq<Label>, after: seq<Label>)
    ensures var s := Exec(Init(partitions), before);
            var t := Exec(s, after);
            && |t.committed| == |s.committed|
            && forall p :: 0 <= p < |s.committed| ==> s.committed[p] <= t.committed[p]
  {
    RunInv(partitions, before);
    CommitsForward(Exec(Init(partitions), before), after);
  }

  lemma {:induction false} CommitsForward(s: State, labels: seq<Label>)
    requires Inv(s)
    ensures |Exec(s, labels).committed| == |s.committed|
    ensures forall p :: 0 <= p < |s.committed| ==> s.committed[p] <= Exec(s, labels).committed[p]
  {
    if labels == [] {
    } else {
      var init := labels[..|labels| - 1];
      CommitsForward(s, init);
      ExecKeepsInv(s, init);
      StepCommitsForward(Exec(s, init), labels[|labels| - 1]);
    }
  }

  /**
    Flush ownership: through every interleaving of deliveries with a running flush, the captured batch stays
    the first elements of the buffer, and the events received by this process are exactly the settled batches
    followed by the buffer, in arrival order.
   */
  lemma FlushOwnsItsBatch(partitions: nat, labels: seq<Label>)
    ensures var s := Exec(Init(partitions), labels);
            && (!s.flight.Idle? ==>
                  && 1 <= |s.flight.batch| <= BATCH_SIZE
                  && s.flight.batch <= s.buffer
                  && s.buffer == s.flight.batch + Splice(s.buffer, |s.flight.batch|))
            && s.received == Flatten(s.settled) + s.buffer
            && (forall i, j :: 0 <= i < j < |s.buffer| && s.buffer[i].partition == s.buffer[j].partition ==>
                                 s.buffer[i].offset < s.buffer[j].offset)
  {
    RunInv(partitions, labels);
    var s := Exec(Init(partitions), labels);
    if !s.flight.Idle? {
      SpliceRemovesBatch(s);
    }
  }

  // ----------------------------------------------- the dead-letter comment

  /** Only logged events are ever dead-lettered. */
  ghost predicate DroppedAreLogged(s: State) {
    forall k :: k in s.dropped ==> k.partition < |s.logs| && k.offset < |s.logs[k.partition]|
  }

  lemma StepKeepsDroppedLogged(s: State, l: Label)
    requires Inv(s) && DroppedAreLogged(s)
    ensures DroppedAreLogged(Do(s, l))
  {
    if l.GiveUp? && Enabled(s, l) {
      var batch := s.flight.batch;
      forall i | 0 <= i < |batch|
        ensures batch[i].partition < |s.logs| && batch[i].offset < |s.logs[batch[i].partition]|
      {
        assert batch[i] == s.buffer[i] && Genuine(s, s.buffer[i]);
      }
    }
  }

  /** The step commits some offset of partition `p`. */
  predicate CommitTakesEffect(s: State, l: Label, p: nat) {
    Enabled(s, l) && l.CommitBatch? && !l.fault.Refused? && p in Latest(s.flight.batch)
  }

  predicate NoCommitOn(s: State, labels: seq<Label>, p: nat) {
    labels == [] ||
    var init := labels[..|labels| - 1];
    NoCommitOn(s, init, p) && !CommitTakesEffect(Exec(s, init), labels[|labels| - 1], p)
  }

  /** The process has moved past offset `o` of partition `p`. */
  ghost predicate Beyond(s: State, p: nat, o: nat) {
    && Inv(s)
    && p < |s.logs| && o < s.position[p]
    && forall i :: 0 <= i < |s.buffer| && s.buffer[i].partition == p ==> o < s.buffer[i].offset
  }

  /** Outside a crash the buffer gains only the event at the current position. */
  lemma StepBuffer(s: State, l: Label)
    requires Inv(s) && !l.Crash?
    ensures forall m :: m in Do(s, l).buffer ==>
              || m in s.buffer
              || (Enabled(s, l) && l.Deliver? && m.partition == l.partition && m.offset == s.position[l.partition])
    ensures |Do(s, l).position| == |s.position|
    ensures forall p :: 0 <= p < |s.position| ==> s.position[p] <= Do(s, l).position[p]
  {
  }

  lemma EffectiveCommitPasses(s: State, l: Label, p: nat, o: nat)
    requires Beyond(s, p, o) && CommitTakesEffect(s, l, p)
    ensures o < CommitAll(s.committed, Latest(s.flight.batch))[p]
  {
    var batch := s.flight.batch;
    LatestIsMaximum(batch);
    var i :| 0 <= i < |batch| && batch[i].partition == p && batch[i].offset == Latest(batch)[p];
    assert batch[i] == s.buffer[i];
  }

  lemma StepStaysBeyond(s: State, l: Label, p: nat, o: nat)
    requires Beyond(s, p, o) && !l.Crash?
    ensures Beyond(Do(s, l), p, o)
  {
    StepKeepsInv(s, l);
    StepBuffer(s, l);
    var t := Do(s, l);
    forall i | 0 <= i < |t.buffer| && t.buffer[i].partition == p
      ensures o < t.buffer[i].offset
    {
      assert t.buffer[i] in t.buffer;
    }
  }

  lemma StepCommitsOnlyHere(s: State, l: Label, p: nat, o: nat)
    requires Beyond(s, p, o) && !l.Crash?
    ensures p < |Do(s, l).committed|
    ensures if CommitTakesEffect(s, l, p) then o < Do(s, l).committed[p]
            else Do(s, l).committed[p] == s.committed[p]
  {
    if CommitTakesEffect(s, l, p) {
      EffectiveCommitPasses(s, l, p, o);
    }
  }

  lemma {:induction false} PassedOnlyByLaterCommit(s: State, labels: seq<Label>, p: nat, o: nat)
    requires Beyond(s, p, o) && s.committed[p] <= o && Crash !in labels
    ensures Beyond(Exec(s, labels), p, o)
    ensures Exec(s, labels).committed[p] <= o <==> NoCommitOn(s, labels, p)
  {
    if labels == [] {
    } else {
      var init := labels[..|labels| - 1];
      PassedOnlyByLaterCommit(s, init, p, o);
      StepStaysBeyond(Exec(s, init), labels[|labels| - 1], p, o);
      StepCommitsOnlyHere(Exec(s, init), labels[|labels| - 1], p, o);
      StepCommitsForward(Exec(s, init), labels[|labels| - 1]);
    }
  }

  lemma RestartAtCommitted(s: State)
    ensures Do(s, Crash).position == s.committed
  {
  }

  lemma GiveUpMovesBeyond(s: State, i: nat)
    requires Inv(s) && Enabled(s, GiveUp) && i < |s.flight.batch|
    requires MessageKey(s.flight.batch[i]) !in Keys(s.rows)
    ensures var m := s.flight.batch[i];
            Beyond(Do(s, GiveUp), m.partition, m.offset) && Do(s, GiveUp).committed[m.partition] <= m.offset
  {
    var m := s.flight.batch[i];
    var t := DoGiveUp(s);
    GiveUpKeepsInv(s);
    RestKeepsBufferInv(s, t);
    assert m == s.buffer[i] && Genuine(s, s.buffer[i]);
    assert MessageKey(m) in BatchKeys(s.flight.batch);
  }

  /**
    The comment at the end of `flush` says that a dead-lettered batch is delivered again on the next restart.
    For an event of it that is not saved this holds, at any later point of the same process, if and only if no
    commit on its partition has taken effect since.
   */
  lemma RedeliveredUnlessPassed(partitions: nat, before: seq<Label>, i: nat, after: seq<Label>)
    requires var s := Exec(Init(partitions), before);
             && Enabled(s, GiveUp) && i < |s.flight.batch|
             && MessageKey(s.flight.batch[i]) !in Keys(s.rows)
    requires Crash !in after
    ensures var s := Exec(Init(partitions), before);
            var m := s.flight.batch[i];
            var t := Do(s, GiveUp);
            var restarted := Do(Exec(t, after), Crash);
            && m.partition < |restarted.position|
            && (restarted.position[m.partition] <= m.offset <==> NoCommitOn(t, after, m.partition))
  {
    RunInv(partitions, before);
    var s := Exec(Init(partitions), before);
    var m := s.flight.batch[i];
    GiveUpMovesBeyond(s, i);
    var t := DoGiveUp(s);
    PassedOnlyByLaterCommit(t, after, m.partition, m.offset);
    RestartAtCommitted(Exec(t, after));
  }

  // A schedule that loses a batch: three events refused five times, the next three committed.

  /** Three events of partition `p` from its current position. */
  function NextBatch(s: State, p: nat): seq<Message>
    requires p < |s.logs| && p < |s.position| && s.position[p] + 3 <= |s.logs[p]|
  {
    var o := s.position[p];
    [Message(p, o, s.logs[p][o]), Message(p, o + 1, s.logs[p][o + 1]), Message(p, o + 2, s.logs[p][o + 2])]
  }

  lemma DeliverBatch(s: State, p: nat)
    requires p < |s.logs| && p < |s.position| && s.position[p] + 3 <= |s.logs[p]|
    requires s.flight.Idle? && s.buffer == []
    ensures var t := Do(Do(Do(s, Deliver(p)), Deliver(p)), Deliver(p));
            t == s.(position := s.position[p := s.position[p] + 3], buffer := NextBatch(s, p),
                    received := s.received + NextBatch(s, p), flight := Saving(NextBatch(s, p), 1, false))
  {
    var b := NextBatch(s, p);
    var s1 := Do(s, Deliver(p));
    var s2 := Do(s1, Deliver(p));
    var s3 := Do(s2, Deliver(p));
    assert s1.buffer == b[..1] && s2.buffer == b[..2] && s3.buffer == b[..3] == b;
    assert s3.position == s.position[p := s.position[p] + 3];
    assert s3.received == s.received + b;
    assert b[..Min(BATCH_SIZE, 3)] == b;
  }

  function RefusedSaves(n: nat): seq<Label> {
    if n == 0 then [] else RefusedSaves(n - 1) + [SaveBatch(Refused)]
  }

  lemma {:induction false} RefusedAttempts(s: State, n: nat)
    requires s.flight.Saving? && s.flight.attempt == 1 && n <= MAX_RETRIES
    ensures Exec(s, RefusedSaves(n)) == s.(flight := Saving(s.flight.batch, 1 + n, s.flight.persisted))
  {
    if n == 0 {
    } else {
      RefusedAttempts(s, n - 1);
      ExecStep(s, RefusedSaves(n - 1), SaveBatch(Refused));
    }
  }

  lemma RefusedFlushGivesUp(s: State)
    requires s.flight.Saving? && s.flight.attempt == 1
    ensures Exec(s, RefusedSaves(MAX_RETRIES) + [GiveUp]) == DoGiveUp(s)
  {
    RefusedAttempts(s, MAX_RETRIES);
    ExecStep(s, RefusedSaves(MAX_RETRIES), GiveUp);
  }

  lemma SaveAndCommit(s: State)
    requires s.flight.Saving? && s.flight.attempt == 1 && !s.flight.persisted && !Clashes(s.rows, s.flight.batch)
    ensures var t := Do(Do(s, SaveBatch(NoFault)), CommitBatch(NoFault));
            && t.committed == CommitAll(s.committed, Latest(s.flight.batch))
            && t.rows == s.rows + Rows(s.flight.batch)
  {
  }

  function Deliveries(p: nat): seq<Label> {
    [Deliver(p)] + [Deliver(p)] + [Deliver(p)]
  }

  lemma ThreeDeliveries(s: State, p: nat)
    ensures Exec(s, Deliveries(p)) == Do(Do(Do(s, Deliver(p)), Deliver(p)), Deliver(p))
  {
    ExecStep(s, [], Deliver(p));
    assert [] + [Deliver(p)] == [Deliver(p)];
    ExecStep(s, [Deliver(p)], Deliver(p));
    ExecStep(s, [Deliver(p)] + [Deliver(p)], Deliver(p));
  }

  /** Three events delivered, refused five times, and dead-lettered. */
  function DropSchedule(p: nat): seq<Label> {
    Deliveries(p) + (RefusedSaves(MAX_RETRIES) + [GiveUp])
  }

  lemma DropScheduleDrops(s: State, p: nat)
    requires p < |s.logs| && p < |s.position| && s.position[p] + 3 <= |s.logs[p]|
    requires s.flight.Idle? && s.buffer == []
    ensures var t := Exec(s, DropSchedule(p));
            && t.logs == s.logs && t.rows == s.rows && t.committed == s.committed
            && t.position == s.position[p := s.position[p] + 3]
            && t.buffer == [] && t.flight.Idle?
  {
    var t := s.(position := s.position[p := s.position[p] + 3], buffer := NextBatch(s, p),
                received := s.received + NextBatch(s, p), flight := Saving(NextBatch(s, p), 1, false));
    DeliverBatch(s, p);
    ThreeDeliveries(s, p);
    RefusedFlushGivesUp(t);
    ExecThen(s, Deliveries(p), RefusedSaves(MAX_RETRIES) + [GiveUp]);
  }

  /** Three events delivered, saved and committed. */
  function CommitSchedule(p: nat): seq<Label> {
    Deliveries(p) + [SaveBatch(NoFault)] + [CommitBatch(NoFault)]
  }

  lemma CommitScheduleCommits(s: State, p: nat)
    requires p < |s.logs| && p < |s.position| && s.position[p] + 3 <= |s.logs[p]|
    requires s.flight.Idle? && s.buffer == [] && |s.committed| == |s.position|
    requires !Clashes(s.rows, NextBatch(s, p))
    ensures var t := Exec(s, CommitSchedule(p));
            t.rows == s.rows + Rows(NextBatch(s, p)) && t.committed == CommitAll(s.committed, Latest(NextBatch(s, p)))
  {
    var t := s.(position := s.position[p := s.position[p] + 3], buffer := NextBatch(s, p),
                received := s.received + NextBatch(s, p), flight := Saving(NextBatch(s, p), 1, false));
    DeliverBatch(s, p);
    ThreeDeliveries(s, p);
    SaveAndCommit(t);
    ExecStep(s, Deliveries(p), SaveBatch(NoFault));
    ExecStep(s, Deliveries(p) + [SaveBatch(NoFault)], CommitBatch(NoFault));
  }

  /**
    From every idle state with six events of a partition still to come and none of them saved, dropping the first
    three and committing the next three commits all six offsets although the first three events have no row.
   */
  lemma DeadLetteredBatchIsLost(s: State, p: nat)
    requires |s.committed| == |s.position| == |s.logs| && s.flight.Idle? && s.buffer == []
    requires p < |s.logs| && s.position[p] + 6 <= |s.logs[p]|
    requires forall i :: 0 <= i < |s.rows| ==> s.rows[i].kafkaPartition != p || s.rows[i].kafkaOffset < s.position[p]
    ensures var t := Exec(s, DropSchedule(p) + CommitSchedule(p));
            && p < |t.committed| && t.committed[p] == s.position[p] + 6
            && forall o :: s.position[p] <= o < s.position[p] + 3 ==> Key(p, o) !in Keys(t.rows)
  {
    var t := Exec(s, DropSchedule(p));
    DropScheduleDrops(s, p);
    SecondBatchIsFresh(s.rows, p, s.position[p], NextBatch(t, p));
    CommitScheduleCommits(t, p);
    SecondBatchPassesFirst(s.rows, t.committed, p, s.position[p], NextBatch(t, p));
    ExecThen(s, DropSchedule(p), CommitSchedule(p));
  }

  function Produces(p: nat, event: Event, n: nat): seq<Label> {
    if n == 0 then [] else Produces(p, event, n - 1) + [Produce(p, event)]
  }

  lemma {:induction false} ProducesFill(partitions: nat, p: nat, event: Event, n: nat)
    requires p < partitions
    ensures var t := Exec(Init(partitions), Produces(p, event, n));
            t == Init(partitions).(logs := t.logs) && |t.logs| == partitions && |t.logs[p]| == n
  {
    if n == 0 {
    } else {
      ProducesFill(partitions, p, event, n - 1);
      ProduceOne(Exec(Init(partitions), Produces(p, event, n - 1)), p, event);
      ExecStep(Init(partitions), Produces(p, event, n - 1), Produce(p, event));
    }
  }

  lemma ProduceOne(s: State, p: nat, event: Event)
    requires p < |s.logs|
    ensures Do(s, Produce(p, event)) == s.(logs := s.logs[p := s.logs[p] + [event]])
  {
  }

  /** So it happens from the very start: six events arrive, and no restart delivers the first three again. */
  lemma FirstBatchCanBeLost(partitions: nat, p: nat, event: Event)
    requires p < partitions
    ensures var t := Exec(Init(partitions), Produces(p, event, 6) + (DropSchedule(p) + CommitSchedule(p)));
            && p < |t.committed| && t.committed[p] == 6 && Do(t, Crash).position == t.committed
            && forall o :: 0 <= o < 3 ==> Key(p, o) !in Keys(t.rows)
  {
    var s := Exec(Init(partitions), Produces(p, event, 6));
    ProducesFill(partitions, p, event, 6);
    DeadLetteredBatchIsLost(s, p);
    ExecThen(Init(partitions), Produces(p, event, 6), DropSchedule(p) + CommitSchedule(p));
    RestartAtCommitted(Exec(s, DropSchedule(p) + CommitSchedule(p)));
  }

  predicate ThreeFrom(batch: seq<Message>, p: nat, o: nat) {
    && |batch| == 3
    && (forall i :: 0 <= i < 3 ==> batch[i].partition == p)
    && batch[0].offset == o && batch[1].offset == o + 1 && batch[2].offset == o + 2
  }

  lemma SecondBatchIsFresh(rows: seq<Row>, p: nat, o: nat, batch: seq<Message>)
    requires ThreeFrom(batch, p, o + 3)
    requires forall i :: 0 <= i < |rows| ==> rows[i].kafkaPartition != p || rows[i].kafkaOffset < o
    ensures !Clashes(rows, batch)
  {
    KeysOutside(rows, p, o);
  }

  lemma SecondBatchPassesFirst(rows: seq<Row>, committed: seq<nat>, p: nat, o: nat, batch: seq<Message>)
    requires ThreeFrom(batch, p, o + 3) && p < |committed|
    requires forall i :: 0 <= i < |rows| ==> rows[i].kafkaPartition != p || rows[i].kafkaOffset < o
    ensures CommitAll(committed, Latest(batch))[p] == o + 6
    ensures forall q :: o <= q < o + 3 ==> Key(p, q) !in Keys(rows + Rows(batch))
  {
    KeysOutside(rows, p, o);
    KeysAppend(rows, Rows(batch));
    KeysOfRows(batch);
    LatestIsMaximum(batch);
  }

  lemma KeysOutside(rows: seq<Row>, p: nat, o: nat)
    requires forall i :: 0 <= i < |rows| ==> rows[i].kafkaPartition != p || rows[i].kafkaOffset < o
    ensures forall k :: k in Keys(rows) && k.partition == p ==> k.offset < o
  {
  }
}
