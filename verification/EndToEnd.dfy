/**
  The API and the order consumer composed over the topic inventory.item-used: events delivered by emits
  (src/product/product.controller.ts:66-95) are the log that the consumer reads
  (order-consumer/src/orders/order.service.ts:42-110).
 */
module EndToEnd {
  import opened Common
  import A = Inventory
  import C = OrderConsumer
  import ConsumerSafety

  datatype System = System(api: A.State, consumer: C.State)

  /** A step of the API, with the partition the broker would choose for an event, or a step of the consumer. */
  datatype Label =
    | Api(step: A.Label, partition: nat)
    | Consumer(step': C.Label)

  function Init(partitions: nat): System {
    System(A.INIT, C.Init(partitions))
  }

  function Do(s: System, l: Label): System {
    match l
    case Api(step, p) =>
      if |s.consumer.logs| <= p then s else
      var api := A.Do(s.api, step);
      if |s.api.log| < |api.log| then
        System(api, C.Do(s.consumer, C.Produce(p, api.log[|api.log| - 1])))
      else System(api, s.consumer)
    case Consumer(step) =>
      if step.Produce? then s else System(s.api, C.Do(s.consumer, step))
  }

  function Exec(s: System, labels: seq<Label>): System {
    if labels == [] then s
    else Do(Exec(s, labels[..|labels| - 1]), labels[|labels| - 1])
  }

  // ------------------------------------------------------- events as multisets

  /** All events of all partitions. */
  function Contents(logs: seq<seq<Event>>): multiset<Event> {
    if logs == [] then multiset{} else Contents(logs[..|logs| - 1]) + multiset(logs[|logs| - 1])
  }

  /** The event a row was made from. */
  function RowEvent(r: C.Row): Event {
    Event(r.remaining, r.success, r.message, r.correlationId)
  }

  function RowEvents(rows: seq<C.Row>): multiset<Event> {
    if rows == [] then multiset{} else RowEvents(rows[..|rows| - 1]) + multiset{RowEvent(rows[|rows| - 1])}
  }

  lemma {:induction false} RowEventsSize(rows: seq<C.Row>)
    ensures |RowEvents(rows)| == |rows|
  {
    if rows == [] {
    } else {
      RowEventsSize(rows[..|rows| - 1]);
    }
  }

  lemma {:induction false} ContentsAppend(logs: seq<seq<Event>>, p: nat, log: seq<Event>, e: Event)
    requires p < |logs| && logs[p] == log + [e]
    ensures Contents(logs) == Contents(logs[p := log]) + multiset{e}
  {
    var last := |logs| - 1;
    if p == last {
      assert logs[p := log][..last] == logs[..last];
    } else {
      ContentsAppend(logs[..last], p, log, e);
      assert logs[p := log][..last] == logs[..last][p := log];
    }
  }

  lemma {:induction false} RemoveRow(rows: seq<C.Row>, i: nat)
    requires i < |rows|
    ensures RowEvents(rows) == RowEvents(rows[..i] + rows[i + 1..]) + multiset{RowEvent(rows[i])}
  {
    var last := |rows| - 1;
    var rest := rows[..i] + rows[i + 1..];
    if i == last {
      assert rest == rows[..last];
    } else {
      RemoveRow(rows[..last], i);
      assert rest[..|rest| - 1] == rows[..last][..i] + rows[..last][i + 1..];
      assert rest[|rest| - 1] == rows[last];
    }
  }

  function Total(logs: seq<seq<Event>>): nat {
    if logs == [] then 0 else Total(logs[..|logs| - 1]) + |logs[|logs| - 1]|
  }

  lemma {:induction false} TotalShorter(logs: seq<seq<Event>>, p: nat, log: seq<Event>)
    requires p < |logs| && |log| < |logs[p]|
    ensures Total(logs[p := log]) < Total(logs)
  {
    var last := |logs| - 1;
    if p == last {
      assert logs[p := log][..last] == logs[..last];
    } else {
      TotalShorter(logs[..last], p, log);
      assert logs[p := log][..last] == logs[..last][p := log];
    }
  }

  lemma {:induction false} NothingLogged(logs: seq<seq<Event>>)
    requires forall p :: 0 <= p < |logs| ==> logs[p] == []
    ensures Contents(logs) == multiset{}
  {
    if logs == [] {
    } else {
      NothingLogged(logs[..|logs| - 1]);
    }
  }

  /** The row is the event logged under its key. */
  predicate Logged(logs: seq<seq<Event>>, r: C.Row) {
    && r.kafkaPartition < |logs|
    && r.kafkaOffset < |logs[r.kafkaPartition]|
    && RowEvent(r) == logs[r.kafkaPartition][r.kafkaOffset]
  }

  /** Every logged event has a row. */
  ghost predicate AllSaved(logs: seq<seq<Event>>, rows: seq<C.Row>) {
    forall p, o :: 0 <= p < |logs| && 0 <= o < |logs[p]| ==> HasRow(rows, p, o)
  }

  ghost predicate HasRow(rows: seq<C.Row>, p: nat, o: nat) {
    exists i :: 0 <= i < |rows| && C.RowKey(rows[i]) == C.Key(p, o)
  }

  /**
    Rows with distinct keys are a sub-collection of the logged events, and all of them exactly when every event has a
    row.
   */
  lemma {:induction false} RowsWithinContents(logs: seq<seq<Event>>, rows: seq<C.Row>)
    requires forall i :: 0 <= i < |rows| ==> Logged(logs, rows[i])
    requires C.DistinctKeys(rows)
    ensures RowEvents(rows) <= Contents(logs)
    ensures RowEvents(rows) == Contents(logs) <==> AllSaved(logs, rows)
    decreases Total(logs)
  {
    if forall p :: 0 <= p < |logs| ==> logs[p] == [] {
      NothingLogged(logs);
      NoRows(logs, rows);
    } else {
      var p :| 0 <= p < |logs| && logs[p] != [];
      var o := |logs[p]| - 1;
      var log := logs[p][..o];
      var shorter := logs[p := log];
      assert logs[p] == log + [logs[p][o]];
      ContentsAppend(logs, p, log, logs[p][o]);
      TotalShorter(logs, p, log);
      if HasRow(rows, p, o) {
        var i :| 0 <= i < |rows| && C.RowKey(rows[i]) == C.Key(p, o);
        var rest := rows[..i] + rows[i + 1..];
        RestOfRows(logs, rows, i, shorter, rest);
        RowsWithinContents(shorter, rest);
        RemoveRow(rows, i);
        WithOneMore(RowEvents(rest), Contents(shorter), RowEvent(rows[i]));
      } else {
        WithoutRow(logs, rows, p, shorter);
        RowsWithinContents(shorter, rows);
        assert RowEvents(rows)[logs[p][o]] < Contents(logs)[logs[p][o]];
        assert !AllSaved(logs, rows);
      }
    }
  }

  lemma WithOneMore(a: multiset<Event>, b: multiset<Event>, e: Event)
    ensures a + multiset{e} == b + multiset{e} <==> a == b
  {
    assert a == a + multiset{e} - multiset{e} && b == b + multiset{e} - multiset{e};
  }

  /** When the last event of partition `p` has no row, the rows are those of the log without it. */
  lemma WithoutRow(logs: seq<seq<Event>>, rows: seq<C.Row>, p: nat, shorter: seq<seq<Event>>)
    requires forall i :: 0 <= i < |rows| ==> Logged(logs, rows[i])
    requires p < |logs| && logs[p] != [] && shorter == logs[p := logs[p][..|logs[p]| - 1]]
    requires !HasRow(rows, p, |logs[p]| - 1)
    ensures forall i :: 0 <= i < |rows| ==> Logged(shorter, rows[i])
  {
    forall i | 0 <= i < |rows|
      ensures Logged(shorter, rows[i])
    {
      assert Logged(logs, rows[i]) && C.RowKey(rows[i]) != C.Key(p, |logs[p]| - 1);
    }
  }

  lemma NoRows(logs: seq<seq<Event>>, rows: seq<C.Row>)
    requires forall i :: 0 <= i < |rows| ==> Logged(logs, rows[i])
    requires forall p :: 0 <= p < |logs| ==> logs[p] == []
    ensures rows == []
  {
    assert rows != [] ==> Logged(logs, rows[0]);
  }

  lemma RestOfRows(logs: seq<seq<Event>>, rows: seq<C.Row>, i: nat, shorter: seq<seq<Event>>, rest: seq<C.Row>)
    requires i < |rows| && (forall k :: 0 <= k < |rows| ==> Logged(logs, rows[k])) && C.DistinctKeys(rows)
    requires Logged(logs, rows[i])
    requires rows[i].kafkaOffset == |logs[rows[i].kafkaPartition]| - 1
    requires shorter == logs[rows[i].kafkaPartition := logs[rows[i].kafkaPartition][..rows[i].kafkaOffset]]
    requires rest == rows[..i] + rows[i + 1..]
    ensures forall k :: 0 <= k < |rest| ==> Logged(shorter, rest[k])
    ensures C.DistinctKeys(rest)
    ensures AllSaved(logs, rows) <==> AllSaved(shorter, rest)
  {
    forall k | 0 <= k < |rest|
      ensures Logged(shorter, rest[k])
    {
      var j := if k < i then k else k + 1;
      assert rest[k] == rows[j] && Logged(logs, rows[j]);
      assert C.RowKey(rows[j]) != C.RowKey(rows[i]);
    }
    forall j, k | 0 <= j < k < |rest|
      ensures C.RowKey(rest[j]) != C.RowKey(rest[k])
    {
      assert rest[j] == rows[if j < i then j else j + 1];
      assert rest[k] == rows[if k < i then k else k + 1];
    }
    RestSaved(logs, rows, i, shorter, rest);
  }

  lemma RestHasRow(rows: seq<C.Row>, i: nat, rest: seq<C.Row>, p: nat, o: nat)
    requires i < |rows| && rest == rows[..i] + rows[i + 1..]
    ensures HasRow(rows, p, o) <==> HasRow(rest, p, o) || C.RowKey(rows[i]) == C.Key(p, o)
  {
    if HasRow(rows, p, o) {
      var j :| 0 <= j < |rows| && C.RowKey(rows[j]) == C.Key(p, o);
      assert j != i ==> rest[if j < i then j else j - 1] == rows[j];
    }
    if HasRow(rest, p, o) {
      var k :| 0 <= k < |rest| && C.RowKey(rest[k]) == C.Key(p, o);
      assert rows[if k < i then k else k + 1] == rest[k];
    }
  }

  lemma RestSaved(logs: seq<seq<Event>>, rows: seq<C.Row>, i: nat, shorter: seq<seq<Event>>, rest: seq<C.Row>)
    requires i < |rows| && Logged(logs, rows[i]) && rest == rows[..i] + rows[i + 1..]
    requires rows[i].kafkaOffset == |logs[rows[i].kafkaPartition]| - 1
    requires shorter == logs[rows[i].kafkaPartition := logs[rows[i].kafkaPartition][..rows[i].kafkaOffset]]
    ensures AllSaved(logs, rows) <==> AllSaved(shorter, rest)
  {
    forall p, o: nat | 0 <= p < |logs|
      ensures HasRow(rows, p, o) <==> HasRow(rest, p, o) || C.RowKey(rows[i]) == C.Key(p, o)
    {
      RestHasRow(rows, i, rest, p, o);
    }
  }

  // --------------------------------------------------------- the composition

  ghost predicate ApiInv(s: A.State) {
    A.CounterInv(s) && A.CallInv(s) && A.Conserved(s)
  }

  ghost predicate ConsumerInv(s: C.State) {
    C.Inv(s) && ConsumerSafety.DroppedAreLogged(s)
  }

  ghost predicate Inv(s: System) {
    ApiInv(s.api) && ConsumerInv(s.consumer) && Contents(s.consumer.logs) == multiset(s.api.log)
  }

  lemma ApiLogGrowsByOne(s: A.State, step: A.Label)
    ensures var t := A.Do(s, step);
            t.log == s.log || (|t.log| == |s.log| + 1 && t.log[..|s.log|] == s.log)
  {
  }

  lemma ConsumerKeepsLogs(s: C.State, step: C.Label)
    requires !step.Produce?
    ensures C.Do(s, step).logs == s.logs
  {
  }

  lemma ProducedContents(s: System, p: nat, e: Event, log: seq<Event>)
    requires p < |s.consumer.logs| && Contents(s.consumer.logs) == multiset(s.api.log) && log == s.api.log + [e]
    ensures Contents(s.consumer.logs[p := s.consumer.logs[p] + [e]]) == multiset(log)
  {
    var logs := s.consumer.logs[p := s.consumer.logs[p] + [e]];
    ContentsAppend(logs, p, s.consumer.logs[p], e);
    assert logs[p := s.consumer.logs[p]] == s.consumer.logs;
  }

  lemma ApiStepKeepsInv(s: A.State, step: A.Label)
    requires ApiInv(s)
    ensures ApiInv(A.Do(s, step))
  {
    A.StepKeepsCounterInv(s, step);
    A.StepKeepsCallInv(s, step);
    A.StepConserves(s, step);
  }

  lemma ConsumerStepKeepsInv(s: C.State, step: C.Label)
    requires ConsumerInv(s)
    ensures ConsumerInv(C.Do(s, step))
  {
    C.StepKeepsInv(s, step);
    ConsumerSafety.StepKeepsDroppedLogged(s, step);
  }

  /** An event that the API delivers is appended to the partition the broker chooses. */
  lemma DeliveredKeepsInv(s: System, p: nat, api: A.State)
    requires Inv(s) && p < |s.consumer.logs| && ApiInv(api)
    requires |api.log| == |s.api.log| + 1 && api.log[..|s.api.log|] == s.api.log
    ensures Inv(System(api, C.Do(s.consumer, C.Produce(p, api.log[|api.log| - 1]))))
  {
    var e := api.log[|s.api.log|];
    ConsumerStepKeepsInv(s.consumer, C.Produce(p, e));
    ProducedContents(s, p, e, api.log);
  }

  lemma ApiKeepsInv(s: System, step: A.Label, p: nat)
    requires Inv(s) && p < |s.consumer.logs|
    ensures Inv(Do(s, Api(step, p)))
  {
    var api := A.Do(s.api, step);
    ApiStepKeepsInv(s.api, step);
    ApiLogGrowsByOne(s.api, step);
    if api.log != s.api.log {
      DeliveredKeepsInv(s, p, api);
    }
  }

  lemma StepKeepsInv(s: System, l: Label)
    requires Inv(s)
    ensures Inv(Do(s, l))
  {
    match l
    case Api(step, p) =>
      if p < |s.consumer.logs| {
        ApiKeepsInv(s, step, p);
      }
    case Consumer(step) =>
      if !step.Produce? {
        ConsumerStepKeepsInv(s.consumer, step);
        ConsumerKeepsLogs(s.consumer, step);
      }
  }

  lemma InitInv(partitions: nat)
    ensures Inv(Init(partitions))
  {
    C.InitInv(partitions);
    NothingLogged(C.Init(partitions).logs);
    assert Count(A.INIT.clients, A.InFlight) == 0;
  }

  lemma {:induction false} RunInv(partitions: nat, labels: seq<Label>)
    ensures Inv(Exec(Init(partitions), labels))
  {
    if labels == [] {
      InitInv(partitions);
    } else {
      RunInv(partitions, labels[..|labels| - 1]);
      StepKeepsInv(Exec(Init(partitions), labels[..|labels| - 1]), labels[|labels| - 1]);
    }
  }

  lemma RowsAreLogged(s: System)
    requires Inv(s)
    ensures forall i :: 0 <= i < |s.consumer.rows| ==> Logged(s.consumer.logs, s.consumer.rows[i])
  {
    forall i | 0 <= i < |s.consumer.rows|
      ensures Logged(s.consumer.logs, s.consumer.rows[i])
    {
      assert C.Faithful(s.consumer, s.consumer.rows[i]);
    }
  }

  /**
    Conservation from the shelf to the table, over every run of both services: initial stock, restocking and
    phantom events equal stock, items in flight and delivered events; and the rows of the orders table are a
    sub-collection of those events, each at most once.
   */
  lemma StockFlightAndEvents(partitions: nat, labels: seq<Label>)
    ensures var s := Exec(Init(partitions), labels);
            && A.INITIAL_STOCK + s.api.restocked + s.api.phantoms
            == A.Stock(s.api) + Count(s.api.clients, A.InFlight) + |s.api.log|
            && RowEvents(s.consumer.rows) <= multiset(s.api.log)
            && |s.consumer.rows| <= |s.api.log|
  {
    RunInv(partitions, labels);
    var s := Exec(Init(partitions), labels);
    RowsAreLogged(s);
    RowsWithinContents(s.consumer.logs, s.consumer.rows);
    RowEventsSize(s.consumer.rows);
    SubsetSize(RowEvents(s.consumer.rows), multiset(s.api.log));
  }

  lemma SubsetSize(a: multiset<Event>, b: multiset<Event>)
    requires a <= b
    ensures |a| <= |b|
  {
    assert b == a + (b - a);
  }

  /** Nothing is in flight in the API, and whatever was delivered to the consumer has left its buffer. */
  predicate Quiet(s: System) {
    && (forall i :: 0 <= i < |s.api.clients| ==> !A.InFlight(s.api.clients[i]))
    && s.consumer.buffer == []
    && |s.consumer.position| == |s.consumer.logs|
    && (forall p :: 0 <= p < |s.consumer.logs| ==> s.consumer.position[p] == |s.consumer.logs[p]|)
  }

  lemma HasRowIff(rows: seq<C.Row>, p: nat, o: nat)
    ensures HasRow(rows, p, o) <==> C.Key(p, o) in C.Keys(rows)
  {
    if C.Key(p, o) in C.Keys(rows) {
      var r :| r in rows && C.RowKey(r) == C.Key(p, o);
    }
  }

  lemma QuietAllSavedIff(s: System)
    requires Inv(s) && Quiet(s)
    ensures AllSaved(s.consumer.logs, s.consumer.rows) <==> s.consumer.dropped <= C.Keys(s.consumer.rows)
  {
    forall p, o: nat
      ensures HasRow(s.consumer.rows, p, o) <==> C.Key(p, o) in C.Keys(s.consumer.rows)
    {
      HasRowIff(s.consumer.rows, p, o);
    }
    forall p, o | 0 <= p < |s.consumer.logs| && 0 <= o < |s.consumer.logs[p]|
      ensures C.SavedOrDropped(s.consumer, C.Key(p, o))
    {
      assert C.SavedOrDropped(s.consumer, C.Key(p, o)) || C.Key(p, o) in C.BatchKeys(s.consumer.buffer);
    }
    forall k | k in s.consumer.dropped
      ensures k.partition < |s.consumer.logs| && k.offset < |s.consumer.logs[k.partition]|
    {
    }
  }

  lemma SameSizeIsSame(a: multiset<Event>, b: multiset<Event>)
    requires a <= b
    ensures |a| == |b| <==> a == b
  {
    assert b == a + (b - a);
    assert |b - a| == 0 ==> b - a == multiset{};
  }

  /**
    Once everything has settled, every item is accounted for by stock and delivered events; and the orders table
    holds exactly those events, and so accounts for the items itself, if and only if every dead-lettered event has a
    row.
   */
  lemma SettledTableMatchesSales(partitions: nat, labels: seq<Label>)
    requires Quiet(Exec(Init(partitions), labels))
    ensures var s := Exec(Init(partitions), labels);
            var items := A.INITIAL_STOCK + s.api.restocked + s.api.phantoms;
            var saved := s.consumer.dropped <= C.Keys(s.consumer.rows);
            && items == A.Stock(s.api) + |s.api.log|
            && (RowEvents(s.consumer.rows) == multiset(s.api.log) <==> saved)
            && (items == A.Stock(s.api) + |s.consumer.rows| <==> saved)
  {
    RunInv(partitions, labels);
    var s := Exec(Init(partitions), labels);
    RowsAreLogged(s);
    QuietAllSavedIff(s);
    RowsWithinContents(s.consumer.logs, s.consumer.rows);
    RowEventsSize(s.consumer.rows);
    SameSizeIsSame(RowEvents(s.consumer.rows), multiset(s.api.log));
    CountZero(s.api.clients, A.InFlight);
  }
}
