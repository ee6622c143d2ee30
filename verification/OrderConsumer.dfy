/**
  The order consumer as a step system: broker logs and committed offsets, the orders table, and the buffer of
  OrderService (order-consumer/src/orders/order.service.ts), with retries, crashes and redelivery.

  Every await of `flush` is a point where other steps may run, so saving and committing are separate labels and
  deliveries fall anywhere between them.  A run is any sequence of labels; a label that is not enabled changes nothing.
 */
module OrderConsumer {
  import opened Common

  const BATCH_SIZE: nat := 3
  const MAX_RETRIES: nat := 5

  datatype Key = Key(partition: nat, offset: nat)

  /** A buffered event: the payload with the partition and offset of its Kafka context. */
  datatype Message = Message(partition: nat, offset: nat, dto: Event)

  datatype Row = Row(remaining: int, success: bool, message: string, correlationId: Option<string>,
                     kafkaPartition: nat, kafkaOffset: nat)

  function MessageKey(m: Message): Key {
    Key(m.partition, m.offset)
  }

  function RowKey(r: Row): Key {
    Key(r.kafkaPartition, r.kafkaOffset)
  }

  function ToRow(m: Message): Row {
    Row(m.dto.remaining, m.dto.success, m.dto.message, m.dto.correlationId, m.partition, m.offset)
  }

  function Keys(rows: seq<Row>): set<Key> {
    set r | r in rows :: RowKey(r)
  }

  function BatchKeys(batch: seq<Message>): set<Key> {
    set m | m in batch :: MessageKey(m)
  }

  function Rows(batch: seq<Message>): seq<Row> {
    seq(|batch|, i requires 0 <= i < |batch| => ToRow(batch[i]))
  }

  // ---------------------------------------------------- save and commit

  /** How a call to the database or the broker may go wrong. */
  datatype Fault = NoFault | Refused | ReplyLost

  /** Inserting the batch would violate the unique (partition, offset) constraint. */
  predicate Clashes(rows: seq<Row>, batch: seq<Message>) {
    || (exists i :: 0 <= i < |batch| && MessageKey(batch[i]) in Keys(rows))
    || (exists i, j :: 0 <= i < j < |batch| && MessageKey(batch[i]) == MessageKey(batch[j]))
  }

  /**
    `repo.save`: all rows or none.  Entities this flush has already persisted differ in nothing, so saving them
    again writes nothing; fresh ones are inserted unless a key is taken.  The second result: no exception.
   */
  function Save(rows: seq<Row>, batch: seq<Message>, persisted: bool, fault: Fault): (seq<Row>, bool) {
    if fault.Refused? then (rows, false)
    else if persisted then (rows, fault.NoFault?)
    else if Clashes(rows, batch) then (rows, false)
    else (rows + Rows(batch), fault.NoFault?)
  }

  /** The map of `commitOffsets`: per partition, the highest offset seen. */
  function Latest(batch: seq<Message>): map<nat, nat> {
    if batch == [] then map[] else
    var before := Latest(batch[..|batch| - 1]);
    var m := batch[|batch| - 1];
    if m.partition in before && m.offset <= before[m.partition] then before
    else before[m.partition := m.offset]
  }

  /** The broker's committed offsets once highest offset + 1 is committed for every partition of the map. */
  function CommitAll(committed: seq<nat>, latest: map<nat, nat>): (c: seq<nat>)
    ensures |c| == |committed|
  {
    seq(|committed|, p requires 0 <= p < |committed| => if p in latest then latest[p] + 1 else committed[p])
  }

  // ---------------------------------------------------------------- state

  /** The running flush; `flushing` is `!Idle?`.  Attempt 6 means that the retry loop has run out. */
  datatype Flight =
    | Idle
    | Saving(batch: seq<Message>, attempt: nat, persisted: bool)
    | Committing(batch: seq<Message>, attempt: nat)

  /** What became of a batch that left the buffer. */
  datatype Settled = Completed(batch: seq<Message>) | DeadLettered(batch: seq<Message>)

  datatype State = State(
    logs: seq<seq<Event>>,      // the topic, per partition
    committed: seq<nat>,        // the group's committed offsets
    rows: seq<Row>,             // the orders table
    position: seq<nat>,         // next offset to deliver to this process
    buffer: seq<Message>,
    flight: Flight,
    received: seq<Message>,     // everything delivered to this process, in order
    settled: seq<Settled>,      // the batches this process has finished, in order
    dropped: set<Key>)          // everything ever dead-lettered

  function Init(partitions: nat): State {
    State(seq(partitions, _ => []), seq(partitions, _ => 0), [], seq(partitions, _ => 0), [], Idle, [], [], {})
  }

  datatype Label =
    | Produce(partition: nat, event: Event)
    | Deliver(partition: nat)
    | SaveBatch(fault: Fault)
    | CommitBatch(fault: Fault)
    | GiveUp
    | Shutdown
    | Crash

  predicate Enabled(s: State, l: Label) {
    match l
    case Produce(p, _) => p < |s.logs|
    case Deliver(p) => p < |s.logs| && p < |s.position| && s.position[p] < |s.logs[p]|
    case SaveBatch(_) => s.flight.Saving? && s.flight.attempt <= MAX_RETRIES
    case CommitBatch(_) => s.flight.Committing?
    case GiveUp => s.flight.Saving? && MAX_RETRIES < s.flight.attempt
    case Shutdown => s.flight.Idle? && s.buffer != []
    case Crash => true
  }

  /** The first lines of `flush`: capture a prefix of the buffer. */
  function StartFlush(buffer: seq<Message>): Flight {
    Saving(buffer[..Min(BATCH_SIZE, |buffer|)], 1, false)
  }

  function DoDeliver(s: State, p: nat): State
    requires Enabled(s, Deliver(p))
  {
    var m := Message(p, s.position[p], s.logs[p][s.position[p]]);
    var buffer := s.buffer + [m];
    s.(position := s.position[p := s.position[p] + 1],
       buffer := buffer,
       received := s.received + [m],
       flight := if BATCH_SIZE <= |buffer| && s.flight.Idle? then StartFlush(buffer) else s.flight)
  }

  function DoSave(s: State, fault: Fault): State
    requires s.flight.Saving?
  {
    var f := s.flight;
    var (rows, ok) := Save(s.rows, f.batch, f.persisted, fault);
    s.(rows := rows,
       flight := if ok then Committing(f.batch, f.attempt) else Saving(f.batch, f.attempt + 1, f.persisted))
  }

  /** `buffer.splice(0, n)` */
  function Splice(buffer: seq<Message>, n: nat): seq<Message> {
    buffer[Min(n, |buffer|)..]
  }

  function DoCommit(s: State, fault: Fault): State
    requires s.flight.Committing?
  {
    var f := s.flight;
    var s' := if fault.Refused? then s else s.(committed := CommitAll(s.committed, Latest(f.batch)));
    if fault.NoFault? then
      s'.(buffer := Splice(s.buffer, |f.batch|), flight := Idle, settled := s.settled + [Completed(f.batch)])
    else
      s'.(flight := Saving(f.batch, f.attempt + 1, true))
  }

  function DoGiveUp(s: State): State
    requires s.flight.Saving?
  {
    s.(buffer := Splice(s.buffer, |s.flight.batch|), flight := Idle,
       settled := s.settled + [DeadLettered(s.flight.batch)],
       dropped := s.dropped + BatchKeys(s.flight.batch))
  }

  function Do(s: State, l: Label): State {
    if !Enabled(s, l) then s else
    match l
    case Produce(p, event) => s.(logs := s.logs[p := s.logs[p] + [event]])
    case Deliver(p) => DoDeliver(s, p)
    case SaveBatch(fault) => DoSave(s, fault)
    case CommitBatch(fault) => DoCommit(s, fault)
    case GiveUp => DoGiveUp(s)
    case Shutdown => s.(flight := StartFlush(s.buffer))
    case Crash => s.(position := s.committed, buffer := [], flight := Idle, received := [], settled := [])
  }

  function Exec(s: State, labels: seq<Label>): State {
    if labels == [] then s
    else Do(Exec(s, labels[..|labels| - 1]), labels[|labels| - 1])
  }

  lemma ExecStep(s: State, labels: seq<Label>, l: Label)
    ensures Exec(s, labels + [l]) == Do(Exec(s, labels), l)
  {
    assert (labels + [l])[..|labels|] == labels;
  }

  lemma {:induction false} ExecThen(s: State, before: seq<Label>, after: seq<Label>)
    ensures Exec(s, before + after) == Exec(Exec(s, before), after)
  {
    if after == [] {
      assert before + after == before;
    } else {
      var n := |after| - 1;
      assert (before + after)[..|before| + n] == before + after[..n];
      ExecThen(s, before, after[..n]);
    }
  }

  // ------------------------------------------------------ the commit map

  /** The map has exactly the batch's partitions, each with its maximum offset. */
  lemma {:induction false} LatestIsMaximum(batch: seq<Message>)
    ensures forall p :: p in Latest(batch) <==> exists i :: 0 <= i < |batch| && batch[i].partition == p
    ensures forall i :: 0 <= i < |batch| ==> batch[i].offset <= Latest(batch)[batch[i].partition]
    ensures forall p :: p in Latest(batch) ==>
              exists i :: 0 <= i < |batch| && batch[i].partition == p && batch[i].offset == Latest(batch)[p]
  {
    if batch == [] {
    } else {
      var before := batch[..|batch| - 1];
      LatestIsMaximum(before);
      forall p | p in Latest(batch)
        ensures exists i :: 0 <= i < |batch| && batch[i].partition == p && batch[i].offset == Latest(batch)[p]
      {
        if p in Latest(before) && Latest(batch)[p] == Latest(before)[p] {
          var i :| 0 <= i < |before| && before[i].partition == p && before[i].offset == Latest(before)[p];
          assert batch[i] == before[i];
        } else {
          assert batch[|batch| - 1].partition == p;
        }
      }
      forall i | 0 <= i < |batch|
        ensures batch[i].partition in Latest(batch) && batch[i].offset <= Latest(batch)[batch[i].partition]
      {
        if i < |before| {
          assert batch[i] == before[i];
        }
      }
      forall p
        ensures p in Latest(batch) <==> exists i :: 0 <= i < |batch| && batch[i].partition == p
      {
        if p in Latest(before) {
          var i :| 0 <= i < |before| && before[i].partition == p;
          assert batch[i].partition == p;
        }
      }
    }
  }

  /** The commit does not depend on the order of the batch. */
  lemma LatestIgnoresOrder(a: seq<Message>, b: seq<Message>)
    requires forall m :: m in a <==> m in b
    ensures Latest(a) == Latest(b)
  {
    LatestBelow(a, b);
    LatestBelow(b, a);
    assert Latest(a).Keys == Latest(b).Keys;
  }

  lemma LatestBelow(a: seq<Message>, b: seq<Message>)
    requires forall m :: m in a ==> m in b
    ensures forall p :: p in Latest(a) ==> p in Latest(b) && Latest(a)[p] <= Latest(b)[p]
  {
    LatestIsMaximum(a);
    LatestIsMaximum(b);
    forall p | p in Latest(a)
      ensures p in Latest(b) && Latest(a)[p] <= Latest(b)[p]
    {
      var i :| 0 <= i < |a| && a[i].partition == p && a[i].offset == Latest(a)[p];
      assert a[i] in b;
    }
  }

  // ---------------------------------------------------------- the invariant

  predicate Shape(s: State) {
    && |s.committed| == |s.position| == |s.logs|
    && forall p :: 0 <= p < |s.logs| ==> s.committed[p] <= s.position[p] <= |s.logs[p]|
  }

  /** The message was delivered to this process and carries the logged event. */
  predicate Genuine(s: State, m: Message)
    requires Shape(s)
  {
    m.partition < |s.logs| && m.offset < s.position[m.partition] && m.dto == s.logs[m.partition][m.offset]
  }

  /** Per partition, the buffer holds increasing offsets. */
  predicate InOrder(buffer: seq<Message>) {
    forall i, j :: 0 <= i < j < |buffer| && buffer[i].partition == buffer[j].partition ==>
                     buffer[i].offset < buffer[j].offset
  }

  predicate BufferInv(s: State)
    requires Shape(s)
  {
    && (forall i :: 0 <= i < |s.buffer| ==> Genuine(s, s.buffer[i]))
    && InOrder(s.buffer)
  }

  function InFlight(f: Flight): seq<Message> {
    if f.Idle? then [] else f.batch
  }

  predicate Persisted(f: Flight) {
    f.Committing? || (f.Saving? && f.persisted)
  }

  /** The captured batch stays the first elements of the buffer. */
  predicate FlightInv(s: State) {
    !s.flight.Idle? ==>
      && 0 < |s.flight.batch| <= BATCH_SIZE
      && s.flight.batch <= s.buffer
      && 1 <= s.flight.attempt <= (if s.flight.Saving? then MAX_RETRIES + 1 else MAX_RETRIES)
      && (Persisted(s.flight) ==> BatchKeys(s.flight.batch) <= Keys(s.rows))
  }

  function Flatten(settled: seq<Settled>): seq<Message> {
    if settled == [] then [] else Flatten(settled[..|settled| - 1]) + settled[|settled| - 1].batch
  }

  /** Everything received is settled or buffered, in arrival order. */
  predicate OrderKept(s: State) {
    s.received == Flatten(s.settled) + s.buffer
  }

  /** The row is the logged event of its key. */
  predicate Faithful(s: State, r: Row) {
    && r.kafkaPartition < |s.logs|
    && r.kafkaOffset < |s.logs[r.kafkaPartition]|
    && r == ToRow(Message(r.kafkaPartition, r.kafkaOffset, s.logs[r.kafkaPartition][r.kafkaOffset]))
  }

  predicate DistinctKeys(rows: seq<Row>) {
    forall i, j :: 0 <= i < j < |rows| ==> RowKey(rows[i]) != RowKey(rows[j])
  }

  predicate RowsInv(s: State) {
    && (forall i :: 0 <= i < |s.rows| ==> Faithful(s, s.rows[i]))
    && DistinctKeys(s.rows)
  }

  /** Saved, or dead-lettered by some flush. */
  predicate SavedOrDropped(s: State, k: Key) {
    k in Keys(s.rows) || k in s.dropped
  }

  /** Whatever this process has been handed, or need not be handed, is accounted for. */
  ghost predicate Covered(s: State) {
    forall p, o :: 0 <= p < |s.position| && 0 <= o < s.position[p] ==>
                     SavedOrDropped(s, Key(p, o)) || Key(p, o) in BatchKeys(s.buffer)
  }

  ghost predicate Safe(s: State) {
    forall p, o :: 0 <= p < |s.committed| && 0 <= o < s.committed[p] ==> SavedOrDropped(s, Key(p, o))
  }

  /** Commits never run ahead of the buffer, except for the batch being committed. */
  predicate CommitInv(s: State)
    requires Shape(s) && BufferInv(s)
  {
    && (forall i :: (if Persisted(s.flight) then |s.flight.batch| else 0) <= i < |s.buffer| ==>
          s.committed[s.buffer[i].partition] <= s.buffer[i].offset)
    && (forall p :: p in Latest(InFlight(s.flight)) && p < |s.committed| ==>
          s.committed[p] <= Latest(InFlight(s.flight))[p] + 1)
  }

  ghost predicate Inv(s: State) {
    && Shape(s) && BufferInv(s) && FlightInv(s) && OrderKept(s) && RowsInv(s) && Covered(s) && Safe(s) && CommitInv(s)
  }

  lemma InitInv(partitions: nat)
    ensures Inv(Init(partitions))
  {
    var s := Init(partitions);
    assert forall p :: 0 <= p < partitions ==> s.logs[p] == [] && s.committed[p] == 0 && s.position[p] == 0;
    assert Shape(s);
    assert Covered(s) && Safe(s);
  }

  lemma KeysAppend(a: seq<Row>, b: seq<Row>)
    ensures Keys(a + b) == Keys(a) + Keys(b)
  {
    assert forall r :: r in a + b <==> r in a || r in b;
    forall k | k in Keys(a) + Keys(b)
      ensures k in Keys(a + b)
    {
      var r :| (r in a || r in b) && RowKey(r) == k;
      assert r in a + b;
    }
  }

  /** Steps that leave logs and table alone keep the table's invariant. */
  lemma SameRows(s: State, t: State)
    requires RowsInv(s) && t.logs == s.logs && t.rows == s.rows
    ensures RowsInv(t)
  {
    assert forall i :: 0 <= i < |s.rows| ==> Faithful(s, s.rows[i]) && Faithful(t, s.rows[i]);
  }

  /** Steps that commit nothing and forget nothing saved or dropped keep the safety property. */
  lemma SameCommits(s: State, t: State)
    requires Safe(s) && t.committed == s.committed && t.rows == s.rows && s.dropped <= t.dropped
    ensures Safe(t)
  {
    assert forall k :: SavedOrDropped(s, k) ==> SavedOrDropped(t, k);
  }

  lemma KeysOfRows(batch: seq<Message>)
    ensures Keys(Rows(batch)) == BatchKeys(batch)
  {
    var rows := Rows(batch);
    assert forall i :: 0 <= i < |batch| ==> RowKey(rows[i]) == MessageKey(batch[i]);
    forall k | k in BatchKeys(batch)
      ensures k in Keys(rows)
    {
      var i :| 0 <= i < |batch| && MessageKey(batch[i]) == k;
      assert rows[i] in rows;
    }
    forall k | k in Keys(rows)
      ensures k in BatchKeys(batch)
    {
      var i :| 0 <= i < |rows| && RowKey(rows[i]) == k;
      assert batch[i] in batch;
    }
  }

  lemma ProduceKeepsInv(s: State, p: nat, event: Event)
    requires Inv(s) && p < |s.logs|
    ensures Inv(s.(logs := s.logs[p := s.logs[p] + [event]]))
  {
    var t := s.(logs := s.logs[p := s.logs[p] + [event]]);
    assert forall i :: 0 <= i < |s.buffer| ==> Genuine(s, s.buffer[i]) && Genuine(t, s.buffer[i]);
    assert forall i :: 0 <= i < |s.rows| ==> Faithful(s, s.rows[i]) && Faithful(t, s.rows[i]);
    assert forall k :: SavedOrDropped(s, k) == SavedOrDropped(t, k);
  }

  lemma DeliverKeepsInv(s: State, p: nat)
    requires Inv(s) && Enabled(s, Deliver(p))
    ensures Inv(DoDeliver(s, p))
  {
    var t := DoDeliver(s, p);
    DeliverKeepsBufferInv(s, p);
    SameRows(s, t);
    SameCommits(s, t);
    assert Covered(t) by {
      DeliverKeepsCovered(s, p);
    }
    assert CommitInv(t) by {
      DeliverKeepsCommitInv(s, p);
    }
  }

  lemma DeliverKeepsBufferInv(s: State, p: nat)
    requires Shape(s) && BufferInv(s) && Enabled(s, Deliver(p))
    ensures Shape(DoDeliver(s, p)) && BufferInv(DoDeliver(s, p))
  {
    assert forall i :: 0 <= i < |s.buffer| ==> Genuine(s, s.buffer[i]) && DoDeliver(s, p).buffer[i] == s.buffer[i];
  }

  lemma DeliverKeepsCommitInv(s: State, p: nat)
    requires Inv(s) && Enabled(s, Deliver(p)) && Shape(DoDeliver(s, p)) && BufferInv(DoDeliver(s, p))
    ensures CommitInv(DoDeliver(s, p))
  {
    var t := DoDeliver(s, p);
    if s.flight.Idle? && !t.flight.Idle? {
      FreshBatchAheadOfCommit(t.committed, t.flight.batch);
    }
  }

  lemma DeliverKeepsCovered(s: State, p: nat)
    requires Shape(s) && Covered(s) && Enabled(s, Deliver(p))
    ensures Covered(DoDeliver(s, p))
  {
    var t := DoDeliver(s, p);
    var m := t.buffer[|s.buffer|];
    assert BatchKeys(t.buffer) == BatchKeys(s.buffer) + {MessageKey(m)} by {
      assert forall x :: x in t.buffer <==> x in s.buffer || x == m;
    }
    forall q, o | 0 <= q < |t.position| && 0 <= o < t.position[q]
      ensures SavedOrDropped(t, Key(q, o)) || Key(q, o) in BatchKeys(t.buffer)
    {
      assert o < s.position[q] ==> SavedOrDropped(s, Key(q, o)) || Key(q, o) in BatchKeys(s.buffer);
    }
  }

  lemma FreshBatchAheadOfCommit(committed: seq<nat>, batch: seq<Message>)
    requires forall i :: 0 <= i < |batch| ==>
               batch[i].partition < |committed| && committed[batch[i].partition] <= batch[i].offset
    ensures forall p :: p in Latest(batch) && p < |committed| ==> committed[p] <= Latest(batch)[p] + 1
  {
    LatestIsMaximum(batch);
  }

  lemma ShutdownKeepsInv(s: State)
    requires Inv(s) && Enabled(s, Shutdown)
    ensures Inv(s.(flight := StartFlush(s.buffer)))
  {
    var t := s.(flight := StartFlush(s.buffer));
    FreshBatchAheadOfCommit(s.committed, t.flight.batch);
    SameRows(s, t);
    SameCommits(s, t);
    assert Covered(t) by {
      assert forall k :: SavedOrDropped(s, k) == SavedOrDropped(t, k);
    }
    assert BufferInv(t) by {
      assert forall i :: 0 <= i < |s.buffer| ==> Genuine(s, s.buffer[i]) && Genuine(t, s.buffer[i]);
    }
  }

  lemma SaveKeepsRows(s: State, fault: Fault)
    requires Shape(s) && BufferInv(s) && FlightInv(s) && RowsInv(s) && s.flight.Saving?
    ensures var t := DoSave(s, fault);
            && RowsInv(t)
            && Keys(s.rows) <= Keys(t.rows)
            && (t.flight.Committing? ==> BatchKeys(s.flight.batch) <= Keys(t.rows))
  {
    var t := DoSave(s, fault);
    var batch := s.flight.batch;
    KeysAppend(s.rows, Rows(batch));
    KeysOfRows(batch);
    forall i | 0 <= i < |t.rows|
      ensures Faithful(t, t.rows[i])
    {
      if i < |s.rows| {
        assert Faithful(s, s.rows[i]);
      } else {
        assert t.rows[i] == ToRow(batch[i - |s.rows|]) && batch[i - |s.rows|] == s.buffer[i - |s.rows|];
        assert Genuine(s, s.buffer[i - |s.rows|]);
      }
    }
    SaveKeepsDistinct(s.rows, batch, s.flight.persisted, fault);
  }

  lemma SaveKeepsInv(s: State, fault: Fault)
    requires Inv(s) && Enabled(s, SaveBatch(fault))
    ensures Inv(DoSave(s, fault))
  {
    var t := DoSave(s, fault);
    SaveKeepsRows(s, fault);
    assert Covered(t) && Safe(t) by {
      assert forall k :: SavedOrDropped(s, k) ==> SavedOrDropped(t, k);
    }
    assert BufferInv(t) by {
      assert forall i :: 0 <= i < |s.buffer| ==> Genuine(s, s.buffer[i]) && Genuine(t, s.buffer[i]);
    }
  }

  /** The unique constraint: no save ever leaves two rows with one key. */
  lemma SaveKeepsDistinct(rows: seq<Row>, batch: seq<Message>, persisted: bool, fault: Fault)
    requires DistinctKeys(rows)
    ensures DistinctKeys(Save(rows, batch, persisted, fault).0)
  {
    var rows' := Save(rows, batch, persisted, fault).0;
    if rows' != rows {
      forall i, j | 0 <= i < j < |rows'|
        ensures RowKey(rows'[i]) != RowKey(rows'[j])
      {
        if |rows| <= j {
          assert RowKey(rows'[j]) == MessageKey(batch[j - |rows|]);
          if i < |rows| {
            assert rows[i] in rows;
            assert RowKey(rows[i]) in Keys(rows);
          } else {
            assert RowKey(rows'[i]) == MessageKey(batch[i - |rows|]);
          }
        }
      }
    }
  }

  lemma FlattenAppend(settled: seq<Settled>, x: Settled)
    ensures Flatten(settled + [x]) == Flatten(settled) + x.batch
  {
    assert (settled + [x])[..|settled|] == settled;
  }

  /** Removing the captured batch removes exactly the batch. */
  lemma SpliceRemovesBatch(s: State)
    requires FlightInv(s) && !s.flight.Idle?
    ensures s.buffer == s.flight.batch + Splice(s.buffer, |s.flight.batch|)
    ensures BatchKeys(s.buffer) == BatchKeys(s.flight.batch) + BatchKeys(Splice(s.buffer, |s.flight.batch|))
  {
    var rest := Splice(s.buffer, |s.flight.batch|);
    assert s.buffer == s.flight.batch + rest;
    assert forall m :: m in s.buffer <==> m in s.flight.batch || m in rest;
  }

  /** After the splice the buffer is a suffix of what it was. */
  lemma RestKeepsBufferInv(s: State, t: State)
    requires Shape(s) && BufferInv(s) && Shape(t) && t.logs == s.logs && t.position == s.position
    requires FlightInv(s) && !s.flight.Idle? && t.buffer == Splice(s.buffer, |s.flight.batch|)
    ensures BufferInv(t)
    ensures forall i :: 0 <= i < |t.buffer| ==> t.buffer[i] == s.buffer[i + |s.flight.batch|]
  {
    forall i | 0 <= i < |t.buffer|
      ensures t.buffer[i] == s.buffer[i + |s.flight.batch|] && Genuine(t, t.buffer[i])
    {
      assert Genuine(s, s.buffer[i + |s.flight.batch|]);
    }
  }

  /** A batch that is settled leaves nothing behind it uncovered. */
  lemma SettledKeepsCovered(s: State, t: State)
    requires Covered(s) && FlightInv(s) && !s.flight.Idle? && t.buffer == Splice(s.buffer, |s.flight.batch|)
    requires t.position == s.position && t.rows == s.rows && s.dropped <= t.dropped
    requires forall k :: k in BatchKeys(s.flight.batch) ==> SavedOrDropped(t, k)
    ensures Covered(t)
  {
    SpliceRemovesBatch(s);
    forall p, o | 0 <= p < |t.position| && 0 <= o < t.position[p]
      ensures SavedOrDropped(t, Key(p, o)) || Key(p, o) in BatchKeys(t.buffer)
    {
      assert SavedOrDropped(s, Key(p, o)) || Key(p, o) in BatchKeys(s.buffer);
    }
  }

  lemma GiveUpKeepsCommitInv(s: State)
    requires Inv(s) && Enabled(s, GiveUp) && BufferInv(DoGiveUp(s))
    ensures CommitInv(DoGiveUp(s))
  {
    RestKeepsBufferInv(s, DoGiveUp(s));
  }

  /** A batch leaves the buffer: what holds whether it was completed or dead-lettered. */
  lemma SettleKeepsBuffer(s: State, t: State, x: Settled)
    requires Inv(s) && !s.flight.Idle? && x.batch == s.flight.batch
    requires Shape(t) && t.logs == s.logs && t.position == s.position && t.rows == s.rows
    requires t.received == s.received && t.flight == Idle && t.settled == s.settled + [x]
    requires t.buffer == Splice(s.buffer, |s.flight.batch|)
    ensures BufferInv(t) && FlightInv(t) && OrderKept(t) && RowsInv(t)
  {
    RestKeepsBufferInv(s, t);
    SameRows(s, t);
    assert OrderKept(t) by {
      SpliceRemovesBatch(s);
      FlattenAppend(s.settled, x);
    }
  }

  lemma GiveUpKeepsInv(s: State)
    requires Inv(s) && Enabled(s, GiveUp)
    ensures Inv(DoGiveUp(s))
  {
    var t := DoGiveUp(s);
    SettleKeepsBuffer(s, t, DeadLettered(s.flight.batch));
    GiveUpKeepsCommitInv(s);
    SettledKeepsCovered(s, t);
    SameCommits(s, t);
  }

  /** Committing a persisted prefix of the buffer keeps everything below the committed offsets accounted for. */
  lemma CommitKeepsSafe(s: State)
    requires Inv(s) && s.flight.Committing?
    ensures var t := s.(committed := CommitAll(s.committed, Latest(s.flight.batch)));
            Shape(t) && Safe(t) && forall p :: 0 <= p < |s.committed| ==> s.committed[p] <= t.committed[p]
  {
    var batch := s.flight.batch;
    var t := s.(committed := CommitAll(s.committed, Latest(batch)));
    LatestIsMaximum(batch);
    forall p | 0 <= p < |s.committed| && p in Latest(batch)
      ensures Latest(batch)[p] < s.position[p]
    {
      var i :| 0 <= i < |batch| && batch[i].partition == p && batch[i].offset == Latest(batch)[p];
      assert Genuine(s, s.buffer[i]);
    }
    forall p, o | 0 <= p < |t.committed| && 0 <= o < t.committed[p]
      ensures SavedOrDropped(t, Key(p, o))
    {
      if p in Latest(batch) {
        BelowLatestIsSettled(s, p, o);
      } else {
        assert SavedOrDropped(s, Key(p, o));
      }
    }
  }

  /** What lies behind the batch in the buffer is at or above the new committed offset. */
  lemma RestAheadOfCommit(s: State, i: nat)
    requires Shape(s) && BufferInv(s) && FlightInv(s) && CommitInv(s) && Covered(s)
    requires s.flight.Committing? && |s.flight.batch| <= i < |s.buffer|
    ensures CommitAll(s.committed, Latest(s.flight.batch))[s.buffer[i].partition] <= s.buffer[i].offset
  {
    var batch := s.flight.batch;
    var p := s.buffer[i].partition;
    assert Genuine(s, s.buffer[i]);
    LatestIsMaximum(batch);
    if p in Latest(batch) {
      var j :| 0 <= j < |batch| && batch[j].partition == p && batch[j].offset == Latest(batch)[p];
      assert batch[j] == s.buffer[j];
    }
  }

  lemma BelowLatestIsSettled(s: State, p: nat, o: nat)
    requires Shape(s) && BufferInv(s) && FlightInv(s) && CommitInv(s) && Covered(s) && s.flight.Committing?
    requires p < |s.position| && p in Latest(s.flight.batch) && o <= Latest(s.flight.batch)[p] && o < s.position[p]
    ensures SavedOrDropped(s, Key(p, o))
  {
    var batch := s.flight.batch;
    if Key(p, o) in BatchKeys(s.buffer) {
      var j :| 0 <= j < |s.buffer| && MessageKey(s.buffer[j]) == Key(p, o);
      if |batch| <= j {
        RestAheadOfCommit(s, j);
        assert false;
      }
      assert batch[j] == s.buffer[j] && batch[j] in batch;
      assert Key(p, o) in BatchKeys(batch);
    } else {
      assert SavedOrDropped(s, Key(p, o)) || Key(p, o) in BatchKeys(s.buffer);
    }
  }

  lemma CommitKeepsInv(s: State, fault: Fault)
    requires Inv(s) && Enabled(s, CommitBatch(fault))
    ensures Inv(DoCommit(s, fault))
  {
    if fault.Refused? {
      RetryKeepsInv(s);
    } else {
      EffectiveCommitKeepsInv(s, fault);
    }
  }

  lemma RetryKeepsInv(s: State)
    requires Inv(s) && s.flight.Committing?
    ensures Inv(DoCommit(s, Refused))
  {
    var t := DoCommit(s, Refused);
    assert forall i :: 0 <= i < |s.buffer| ==> Genuine(s, s.buffer[i]) && Genuine(t, s.buffer[i]);
    assert forall i :: 0 <= i < |s.rows| ==> Faithful(s, s.rows[i]) && Faithful(t, s.rows[i]);
    assert forall k :: SavedOrDropped(s, k) == SavedOrDropped(t, k);
  }

  lemma EffectiveCommitKeepsInv(s: State, fault: Fault)
    requires Inv(s) && s.flight.Committing? && !fault.Refused?
    ensures Inv(DoCommit(s, fault))
  {
    var t := DoCommit(s, fault);
    EffectiveCommitKeepsSafe(s, fault);
    if fault.NoFault? {
      SettleKeepsBuffer(s, t, Completed(s.flight.batch));
      SettledKeepsCovered(s, t);
    } else {
      RepliedLateKeepsBuffer(s);
    }
    EffectiveCommitKeepsCommitInv(s, fault);
  }

  lemma EffectiveCommitKeepsSafe(s: State, fault: Fault)
    requires Inv(s) && s.flight.Committing? && !fault.Refused?
    ensures Shape(DoCommit(s, fault)) && Safe(DoCommit(s, fault))
  {
    CommitKeepsSafe(s);
    SameCommits(s.(committed := CommitAll(s.committed, Latest(s.flight.batch))), DoCommit(s, fault));
  }

  lemma RepliedLateKeepsBuffer(s: State)
    requires Inv(s) && s.flight.Committing? && Shape(DoCommit(s, ReplyLost))
    ensures var t := DoCommit(s, ReplyLost);
            BufferInv(t) && FlightInv(t) && OrderKept(t) && RowsInv(t) && Covered(t)
  {
    var t := DoCommit(s, ReplyLost);
    SameRows(s, t);
    assert forall i :: 0 <= i < |s.buffer| ==> Genuine(s, s.buffer[i]) && Genuine(t, s.buffer[i]);
    assert forall k :: SavedOrDropped(s, k) == SavedOrDropped(t, k);
  }

  lemma EffectiveCommitKeepsCommitInv(s: State, fault: Fault)
    requires Inv(s) && s.flight.Committing? && !fault.Refused?
    requires Shape(DoCommit(s, fault)) && BufferInv(DoCommit(s, fault))
    ensures CommitInv(DoCommit(s, fault))
  {
    var t := DoCommit(s, fault);
    var n := |s.flight.batch|;
    forall i | n <= i < |s.buffer|
      ensures t.committed[s.buffer[i].partition] <= s.buffer[i].offset
    {
      RestAheadOfCommit(s, i);
    }
    if fault.NoFault? {
      RestKeepsBufferInv(s, t);
    }
  }

  lemma CrashKeepsInv(s: State)
    requires Inv(s)
    ensures Inv(Do(s, Crash))
  {
    var t := Do(s, Crash);
    assert forall i :: 0 <= i < |s.rows| ==> Faithful(s, s.rows[i]) && Faithful(t, s.rows[i]);
    assert forall k :: SavedOrDropped(s, k) == SavedOrDropped(t, k);
  }

  lemma StepKeepsInv(s: State, l: Label)
    requires Inv(s)
    ensures Inv(Do(s, l))
  {
    if Enabled(s, l) {
      match l
      case Produce(p, event) => ProduceKeepsInv(s, p, event);
      case Deliver(p) => DeliverKeepsInv(s, p);
      case SaveBatch(fault) => SaveKeepsInv(s, fault);
      case CommitBatch(fault) => CommitKeepsInv(s, fault);
      case GiveUp => GiveUpKeepsInv(s);
      case Shutdown => ShutdownKeepsInv(s);
      case Crash => CrashKeepsInv(s);
    }
  }

  lemma {:induction false} ExecKeepsInv(s: State, labels: seq<Label>)
    requires Inv(s)
    ensures Inv(Exec(s, labels))
  {
    if labels == [] {
    } else {
      ExecKeepsInv(s, labels[..|labels| - 1]);
      StepKeepsInv(Exec(s, labels[..|labels| - 1]), labels[|labels| - 1]);
    }
  }
}
