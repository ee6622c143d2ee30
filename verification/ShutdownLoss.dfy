/**
  A run of overlapping flushes that loses an event: the service is shut down while a flush waits to retry
  (order-consumer/src/orders/order.service.ts:36-40, 60-88).
 */
module ShutdownLoss {
  import opened Common
  import opened OverlappingFlushes
  import C = OrderConsumer

  /** Three messages with the same event, from offset `o` of the only partition. */
  function Three(e: Event, o: nat): seq<C.Message> {
    [C.Message(0, o, e), C.Message(0, o + 1, e), C.Message(0, o + 2, e)]
  }

  function Repeat(e: Event, n: nat): (log: seq<Event>)
    ensures |log| == n && forall o :: 0 <= o < n ==> log[o] == e
  {
    if n == 0 then [] else Repeat(e, n - 1) + [e]
  }

  /** One partition holding seven equal events. */
  function Seven(e: Event): seq<Event> {
    Repeat(e, 7)
  }

  function Produced(e: Event): State {
    State(C.Init(1).(logs := [Seven(e)]), [], false)
  }

  /** The first flush is refused once; the shutdown starts another on the same batch; a fourth event arrives. */
  function Overlapped(e: Event): State {
    var received := Three(e, 0) + [C.Message(0, 3, e)];
    State(C.State([Seven(e)], [0], [], [4], received, C.Idle, received, [], {}),
          [Flush(C.Saving(Three(e, 0), 2, false), 0), Flush(C.Saving(Three(e, 0), 1, false), 0)], true)
  }

  /** The shutdown's flush has saved, committed and spliced. */
  function SecondDone(e: Event): State {
    var received := Three(e, 0) + [C.Message(0, 3, e)];
    State(C.State([Seven(e)], [3], C.Rows(Three(e, 0)), [4], [C.Message(0, 3, e)], C.Idle, received,
                  [C.Completed(Three(e, 0))], {}),
          [Flush(C.Saving(Three(e, 0), 2, false), 0), Flush(C.Idle, 0)], false)
  }

  /** The first flush has met its own rows four times and given up; its splice took the fourth event. */
  function FirstDone(e: Event): State {
    var s := SecondDone(e);
    State(s.base.(buffer := [], settled := s.base.settled + [C.DeadLettered(Three(e, 0))],
                  dropped := C.BatchKeys(Three(e, 0))),
          [Flush(C.Idle, 0), Flush(C.Idle, 0)], false)
  }

  function Produces(e: Event, n: nat): seq<Label> {
    if n == 0 then [] else Produces(e, n - 1) + [Env(C.Produce(0, e))]
  }

  function Delivers(n: nat): seq<Label> {
    if n == 0 then [] else Delivers(n - 1) + [Env(C.Deliver(0))]
  }

  function Saves(i: nat, n: nat): seq<Label> {
    if n == 0 then [] else Saves(i, n - 1) + [Of(i, C.SaveBatch(C.NoFault))]
  }

  lemma ProduceOne(s: State, e: Event)
    requires |s.base.logs| == 1 && s.base.flight.Idle?
    ensures Do(s, Env(C.Produce(0, e))) == s.(base := s.base.(logs := [s.base.logs[0] + [e]]))
  {
  }

  lemma {:induction false} ProducesFill(e: Event, n: nat)
    ensures Exec(Init(1), Produces(e, n)) == State(C.Init(1).(logs := [Repeat(e, n)]), [], false)
  {
    if n == 0 {
      assert C.Init(1).logs == [[]];
    } else {
      ProducesFill(e, n - 1);
      ProduceOne(Exec(Init(1), Produces(e, n - 1)), e);
      ExecStep(Init(1), Produces(e, n - 1), Env(C.Produce(0, e)));
    }
  }

  lemma SevenProduced(e: Event)
    ensures Exec(Init(1), Produces(e, 7)) == Produced(e)
  {
    ProducesFill(e, 7);
  }

  /** An event arrives that starts no flush. */
  lemma DeliverOne(s: State, e: Event)
    requires s.base.logs == [Seven(e)] && |s.base.position| == 1 && s.base.position[0] < 7 && s.base.flight.Idle?
    requires s.flushing || |s.base.buffer| < 2
    ensures var m := C.Message(0, s.base.position[0], e);
            Do(s, Env(C.Deliver(0))) ==
            s.(base := s.base.(position := [s.base.position[0] + 1], buffer := s.base.buffer + [m],
                               received := s.base.received + [m]))
  {
  }

  /** Three events arrive at an idle service, and a flush begins. */
  lemma DeliverThree(s: State, e: Event)
    requires s.base.logs == [Seven(e)] && |s.base.position| == 1 && s.base.position[0] <= 4 && s.base.flight.Idle?
    requires !s.flushing && s.base.buffer == []
    ensures var batch := Three(e, s.base.position[0]);
            Exec(s, Delivers(3)) ==
            State(s.base.(position := [s.base.position[0] + 3], buffer := batch, received := s.base.received + batch),
                  s.flushes + [Flush(C.Saving(batch, 1, false), |s.base.received|)], true)
  {
    var batch := Three(e, s.base.position[0]);
    var d := Env(C.Deliver(0));
    var s1, s2 := Do(s, d), Do(Do(s, d), d);
    DeliverOne(s, e);
    assert s1.base.buffer == batch[..1];
    DeliverOne(s1, e);
    assert s2.base.received == s.base.received + ([batch[0]] + [batch[1]]);
    assert [batch[0]] + [batch[1]] == batch[..2];
    assert s2.base.buffer == batch[..2] && s2.base.received == s.base.received + batch[..2];
    ThirdStarts(s2, e, batch);
    assert batch[..2] + [batch[2]] == batch;
    assert s.base.received + batch[..2] + [batch[2]] == s.base.received + (batch[..2] + [batch[2]]);
    ExecStep(s, [], d);
    ExecStep(s, Delivers(1), d);
    ExecStep(s, Delivers(2), d);
  }

  lemma ThirdStarts(s: State, e: Event, batch: seq<C.Message>)
    requires s.base.logs == [Seven(e)] && |s.base.position| == 1 && s.base.position[0] < 7 && s.base.flight.Idle?
    requires !s.flushing && |batch| == 3 && s.base.buffer == batch[..2] && 2 <= |s.base.received|
    requires batch[2] == C.Message(0, s.base.position[0], e)
    ensures Do(s, Env(C.Deliver(0))) ==
            State(s.base.(position := [s.base.position[0] + 1], buffer := batch,
                          received := s.base.received + [batch[2]]),
                  s.flushes + [Flush(C.Saving(batch, 1, false), |s.base.received| - 2)], true)
  {
    assert s.base.buffer + [batch[2]] == batch == batch[..3];
  }

  function OverlapSchedule(): seq<Label> {
    Delivers(3) + [Of(0, C.SaveBatch(C.Refused))] + [Env(C.Shutdown)] + [Env(C.Deliver(0))]
  }

  /** The first flush after three deliveries, with its attempt count. */
  function Waiting(e: Event, attempt: nat): State {
    State(C.State([Seven(e)], [0], [], [3], Three(e, 0), C.Idle, Three(e, 0), [], {}),
          [Flush(C.Saving(Three(e, 0), attempt, false), 0)], true)
  }

  lemma FirstIsRefused(e: Event)
    ensures Exec(Produced(e), Delivers(3) + [Of(0, C.SaveBatch(C.Refused))]) == Waiting(e, 2)
  {
    var s := Produced(e);
    DeliverThree(s, e);
    assert Exec(s, Delivers(3)) == Waiting(e, 1);
    ExecStep(s, Delivers(3), Of(0, C.SaveBatch(C.Refused)));
    assert Do(Waiting(e, 1), Of(0, C.SaveBatch(C.Refused))).flushes == Waiting(e, 2).flushes;
  }

  lemma ShutdownJoins(e: Event)
    ensures Do(Do(Waiting(e, 2), Env(C.Shutdown)), Env(C.Deliver(0))) == Overlapped(e)
  {
    var batch := Three(e, 0);
    assert batch[..Min(C.BATCH_SIZE, |batch|)] == batch;
    var shut := Do(Waiting(e, 2), Env(C.Shutdown));
    assert shut.flushes == Overlapped(e).flushes;
    DeliverOne(shut, e);
  }

  lemma ScheduleOverlaps(e: Event)
    ensures Exec(Produced(e), OverlapSchedule()) == Overlapped(e)
  {
    var s := Produced(e);
    var labels := Delivers(3) + [Of(0, C.SaveBatch(C.Refused))];
    FirstIsRefused(e);
    ShutdownJoins(e);
    ExecStep(s, labels, Env(C.Shutdown));
    ExecStep(s, labels + [Env(C.Shutdown)], Env(C.Deliver(0)));
  }

  /** A flush whose batch is new saves, commits and splices. */
  function Succeeds(i: nat): seq<Label> {
    [Of(i, C.SaveBatch(C.NoFault))] + [Of(i, C.CommitBatch(C.NoFault))]
  }

  lemma SaveSucceeds(s: State, i: nat)
    requires i < |s.flushes| && s.flushes[i].flight.Saving? && !s.flushes[i].flight.persisted
    requires s.flushes[i].flight.attempt <= C.MAX_RETRIES && !C.Clashes(s.base.rows, s.flushes[i].flight.batch)
    requires s.base.flight.Idle?
    ensures var f := s.flushes[i];
            Do(s, Of(i, C.SaveBatch(C.NoFault))) ==
            s.(base := s.base.(rows := s.base.rows + C.Rows(f.flight.batch)),
               flushes := s.flushes[i := Flush(C.Committing(f.flight.batch, f.flight.attempt), f.from)])
  {
  }

  lemma CommitSucceeds(s: State, i: nat)
    requires i < |s.flushes| && s.flushes[i].flight.Committing? && s.base.flight.Idle?
    ensures var batch := s.flushes[i].flight.batch;
            Do(s, Of(i, C.CommitBatch(C.NoFault))) ==
            State(s.base.(committed := C.CommitAll(s.base.committed, C.Latest(batch)),
                          buffer := C.Splice(s.base.buffer, |batch|),
                          settled := s.base.settled + [C.Completed(batch)]),
                  s.flushes[i := Flush(C.Idle, s.flushes[i].from)], false)
  {
  }

  lemma FlushSucceeds(s: State, i: nat)
    requires i < |s.flushes| && s.flushes[i].flight.Saving? && !s.flushes[i].flight.persisted
    requires s.flushes[i].flight.attempt <= C.MAX_RETRIES && !C.Clashes(s.base.rows, s.flushes[i].flight.batch)
    requires s.base.flight.Idle?
    ensures var batch := s.flushes[i].flight.batch;
            Exec(s, Succeeds(i)) ==
            State(s.base.(rows := s.base.rows + C.Rows(batch),
                          committed := C.CommitAll(s.base.committed, C.Latest(batch)),
                          buffer := C.Splice(s.base.buffer, |batch|),
                          settled := s.base.settled + [C.Completed(batch)]),
                  s.flushes[i := Flush(C.Idle, s.flushes[i].from)], false)
  {
    SaveSucceeds(s, i);
    var saved := Do(s, Of(i, C.SaveBatch(C.NoFault)));
    CommitSucceeds(saved, i);
    assert saved.flushes[i := Flush(C.Idle, s.flushes[i].from)] == s.flushes[i := Flush(C.Idle, s.flushes[i].from)];
    ExecStep(s, [], Of(i, C.SaveBatch(C.NoFault)));
    assert [] + [Of(i, C.SaveBatch(C.NoFault))] == [Of(i, C.SaveBatch(C.NoFault))];
    ExecStep(s, [Of(i, C.SaveBatch(C.NoFault))], Of(i, C.CommitBatch(C.NoFault)));
  }

  /** Committing three events from offset `o` of the only partition. */
  lemma CommitsThree(e: Event, o: nat, committed: nat)
    ensures C.CommitAll([committed], C.Latest(Three(e, o))) == [o + 3]
  {
    C.LatestIsMaximum(Three(e, o));
    assert Three(e, o)[2].offset == o + 2;
  }

  lemma SecondSucceeds(e: Event)
    ensures Exec(Overlapped(e), Succeeds(1)) == SecondDone(e)
  {
    var s := Overlapped(e);
    FlushSucceeds(s, 1);
    CommitsThree(e, 0, 0);
    assert C.Splice(s.base.buffer, 3) == [C.Message(0, 3, e)];
  }

  /** The first flush, about to try for the given time. */
  function Stuck(e: Event, attempt: nat): State {
    SecondDone(e).(flushes := [Flush(C.Saving(Three(e, 0), attempt, false), 0), Flush(C.Idle, 0)])
  }

  /** Its rows are there already, saved by the other flush. */
  lemma BatchClashes(e: Event)
    ensures C.Clashes(C.Rows(Three(e, 0)), Three(e, 0))
  {
    C.KeysOfRows(Three(e, 0));
    assert C.MessageKey(Three(e, 0)[0]) in C.BatchKeys(Three(e, 0));
  }

  lemma StuckAgain(e: Event, attempt: nat)
    requires attempt <= C.MAX_RETRIES
    ensures Do(Stuck(e, attempt), Of(0, C.SaveBatch(C.NoFault))) == Stuck(e, attempt + 1)
  {
    BatchClashes(e);
    assert Stuck(e, attempt).flushes[0 := Stuck(e, attempt + 1).flushes[0]] == Stuck(e, attempt + 1).flushes;
  }

  lemma {:induction false} SavesClash(e: Event, n: nat)
    requires n <= 4
    ensures Exec(Stuck(e, 2), Saves(0, n)) == Stuck(e, 2 + n)
  {
    if n == 0 {
    } else {
      SavesClash(e, n - 1);
      StuckAgain(e, 1 + n);
      ExecStep(Stuck(e, 2), Saves(0, n - 1), Of(0, C.SaveBatch(C.NoFault)));
    }
  }

  lemma StuckGivesUp(e: Event)
    ensures Do(Stuck(e, 6), Of(0, C.GiveUp)) == FirstDone(e)
  {
    assert Stuck(e, 6).flushes[0 := Flush(C.Idle, 0)] == FirstDone(e).flushes;
  }

  lemma FirstFails(e: Event)
    ensures Exec(SecondDone(e), Saves(0, 4) + [Of(0, C.GiveUp)]) == FirstDone(e)
  {
    SavesClash(e, 4);
    StuckGivesUp(e);
    ExecStep(Stuck(e, 2), Saves(0, 4), Of(0, C.GiveUp));
  }

  /** The next three events are handled as usual. */
  function Lost(e: Event): State {
    var s := FirstDone(e);
    State(s.base.(rows := s.base.rows + C.Rows(Three(e, 4)), committed := [7], position := [7],
                  received := s.base.received + Three(e, 4),
                  settled := s.base.settled + [C.Completed(Three(e, 4))]),
          s.flushes + [Flush(C.Idle, 4)], false)
  }

  /** Three more events have arrived, and the third flush has begun. */
  function Third(e: Event): State {
    var s := FirstDone(e);
    State(s.base.(position := [7], buffer := Three(e, 4), received := s.base.received + Three(e, 4)),
          s.flushes + [Flush(C.Saving(Three(e, 4), 1, false), 4)], true)
  }

  lemma ThirdBegins(e: Event)
    ensures Exec(FirstDone(e), Delivers(3)) == Third(e)
  {
    DeliverThree(FirstDone(e), e);
  }

  lemma ThirdEnds(e: Event)
    ensures Exec(Third(e), Succeeds(2)) == Lost(e)
  {
    C.KeysOfRows(Three(e, 0));
    FlushSucceeds(Third(e), 2);
    CommitsThree(e, 4, 3);
    assert Third(e).flushes[2 := Flush(C.Idle, 4)] == Lost(e).flushes;
  }

  lemma NextBatchSucceeds(e: Event)
    ensures Exec(FirstDone(e), Delivers(3) + Succeeds(2)) == Lost(e)
  {
    ThirdBegins(e);
    ThirdEnds(e);
    ExecThen(FirstDone(e), Delivers(3), Succeeds(2));
  }

  function LossSchedule(e: Event): seq<Label> {
    Produces(e, 7) + OverlapSchedule() + Succeeds(1) + (Saves(0, 4) + [Of(0, C.GiveUp)]) + (Delivers(3) + Succeeds(2))
  }

  lemma LossScheduleRuns(e: Event)
    ensures Exec(Init(1), LossSchedule(e)) == Lost(e)
  {
    var labels := Produces(e, 7);
    SevenProduced(e);
    ScheduleOverlaps(e);
    ExecThen(Init(1), labels, OverlapSchedule());
    labels := labels + OverlapSchedule();
    SecondSucceeds(e);
    ExecThen(Init(1), labels, Succeeds(1));
    labels := labels + Succeeds(1);
    FirstFails(e);
    ExecThen(Init(1), labels, Saves(0, 4) + [Of(0, C.GiveUp)]);
    labels := labels + (Saves(0, 4) + [Of(0, C.GiveUp)]);
    NextBatchSucceeds(e);
    ExecThen(Init(1), labels, Delivers(3) + Succeeds(2));
  }

  lemma FourthIsNowhere(e: Event)
    ensures !C.SavedOrDropped(Lost(e).base, C.Key(0, 3))
  {
    C.KeysOfRows(Three(e, 0));
    C.KeysOfRows(Three(e, 4));
    C.KeysAppend(C.Rows(Three(e, 0)), C.Rows(Three(e, 4)));
  }

  /**
    The overlap loses an event for good: a shutdown begun while a flush waits to retry ends with every flush over and
    the offset committed past an event that is in neither the table, the dead letters, nor the buffer.
   */
  lemma ShutdownCanLoseAnEvent(e: Event)
    ensures var s := Exec(Init(1), LossSchedule(e));
            && s.base.committed == [7] && s.base.buffer == [] && !s.flushing
            && (forall i :: 0 <= i < |s.flushes| ==> s.flushes[i].flight.Idle?)
            && C.Message(0, 3, e) in s.base.received
            && !C.SavedOrDropped(s.base, C.Key(0, 3))
  {
    LossScheduleRuns(e);
    FourthIsNowhere(e);
    assert Lost(e).base.received[3] == C.Message(0, 3, e);
  }
}
