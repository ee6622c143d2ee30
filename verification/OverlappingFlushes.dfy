/**
  Several flushes at once.  A delivery starts a flush only when `flushing` is false, but `onModuleDestroy`
  (order-consumer/src/orders/order.service.ts:36-40) does not look at the flag, so its flush may run beside another,
  and whichever ends first clears the flag for both.

  The state is that of module OrderConsumer, with any number of flights over one buffer, table and broker.
 */
module OverlappingFlushes {
  import opened Common
  import opened ConsumerSafety
  import C = OrderConsumer

  /** A flush, and how many of the events received had left the buffer when it captured its batch. */
  datatype Flush = Flush(flight: C.Flight, from: int)

  /** `flushes` are those this process ever started; one that has ended is idle.  The base has no flight of its own. */
  datatype State = State(base: C.State, flushes: seq<Flush>, flushing: bool)

  /** A step of the environment, or of flush `flush`. */
  datatype Label = Env(step: C.Label) | Of(flush: nat, step: C.Label)

  function Init(partitions: nat): State {
    State(C.Init(partitions), [], false)
  }

  /** How many of the events received are no longer buffered. */
  function Spliced(base: C.State): int {
    |base.received| - |base.buffer|
  }

  /** The process as flush `i` sees it. */
  function At(s: State, i: nat): C.State
    requires i < |s.flushes|
  {
    s.base.(flight := s.flushes[i].flight)
  }

  predicate FlushStep(step: C.Label) {
    step.SaveBatch? || step.CommitBatch? || step.GiveUp?
  }

  predicate Enabled(s: State, l: Label) {
    match l
    case Env(step) => !FlushStep(step) && C.Enabled(s.base, step)
    case Of(i, step) => FlushStep(step) && i < |s.flushes| && C.Enabled(At(s, i), step)
  }

  function DoEnv(s: State, step: C.Label): State {
    var base := C.Do(s.base, step);
    if step.Crash? then State(base, [], false)
    else if base.flight.Idle? || (step.Deliver? && s.flushing) then s.(base := base.(flight := C.Idle))
    else State(base.(flight := C.Idle), s.flushes + [Flush(base.flight, Spliced(base))], true)
  }

  function DoOf(s: State, i: nat, step: C.Label): State
    requires i < |s.flushes|
  {
    var base := C.Do(At(s, i), step);
    State(base.(flight := C.Idle), s.flushes[i := s.flushes[i].(flight := base.flight)],
          s.flushing && !base.flight.Idle?)
  }

  function Do(s: State, l: Label): State {
    if !Enabled(s, l) then s else
    match l
    case Env(step) => DoEnv(s, step)
    case Of(i, step) => DoOf(s, i, step)
  }

  function Exec(s: State, labels: seq<Label>): State {
    if labels == [] then s
    else Do(Exec(s, labels[..|labels| - 1]), labels[|labels| - 1])
  }

  lemma ExecStep(s: State, labels: seq<Label>, l: Label)
    ensures Exec(s, labels + [l]) == Do(Exec(s, labels), l)
  {
    assert (labels + [l])[..|labels|] == labels;
  }

  lemma {:induction false} ExecThen(s: State, before: seq<Label>, after: seq<Label>)
    ensures Exec(s, before + after) == Exec(Exec(s, before), after)
  {
    if after == [] {
      assert before + after == before;
    } else {
      var n := |after| - 1;
      assert (before + after)[..|before| + n] == before + after[..n];
      ExecThen(s, before, after[..n]);
    }
  }

  // ---------------------------------------------------------- invariant

  /** The buffer is the end of what was received, and nothing was received twice. */
  predicate Traced(base: C.State) {
    && base.flight.Idle?
    && C.Shape(base)
    && |base.buffer| <= |base.received|
    && base.buffer == base.received[Spliced(base)..]
    && C.InOrder(base.received)
    && forall k :: 0 <= k < |base.received| ==>
         var m := base.received[k];
         m.partition < |base.position| && m.offset < base.position[m.partition]
  }

  /** The batch of a running flush is what was received from its beginning on. */
  predicate Placed(base: C.State, f: Flush) {
    !f.flight.Idle? ==>
      && 0 < |f.flight.batch| <= C.BATCH_SIZE
      && 0 <= f.from <= Spliced(base)
      && f.from + |f.flight.batch| <= |base.received|
      && f.flight.batch == base.received[f.from..f.from + |f.flight.batch|]
      && 1 <= f.flight.attempt <= (if f.flight.Saving? then C.MAX_RETRIES + 1 else C.MAX_RETRIES)
  }

  predicate Inv(s: State) {
    Traced(s.base) && forall i :: 0 <= i < |s.flushes| ==> Placed(s.base, s.flushes[i])
  }

  lemma DeliverKeepsTraced(base: C.State, p: nat)
    requires Traced(base) && C.Enabled(base, C.Deliver(p))
    ensures Traced(C.DoDeliver(base, p).(flight := C.Idle))
    ensures base.received <= C.DoDeliver(base, p).received
    ensures Spliced(C.DoDeliver(base, p)) == Spliced(base)
  {
  }

  lemma StartIsPlaced(base: C.State)
    requires Traced(base) && base.buffer != []
    ensures Placed(base, Flush(C.StartFlush(base.buffer), Spliced(base)))
  {
  }

  lemma GrowthKeepsPlaced(a: C.State, b: C.State, f: Flush)
    requires Placed(a, f) && a.received <= b.received && Spliced(a) <= Spliced(b)
    ensures Placed(b, f)
  {
  }

  lemma EnvKeepsTraced(s: State, step: C.Label)
    requires Traced(s.base) && Enabled(s, Env(step))
    ensures var t := DoEnv(s, step);
            && Traced(t.base)
            && (!step.Crash? ==> s.base.received <= t.base.received && Spliced(s.base) == Spliced(t.base))
  {
    if step.Deliver? {
      DeliverKeepsTraced(s.base, step.partition);
    }
  }

  lemma EnvStarts(s: State, step: C.Label)
    requires Traced(s.base) && Enabled(s, Env(step)) && !step.Crash?
    ensures var t := DoEnv(s, step);
            || t.flushes == s.flushes
            || (t.base.buffer != [] &&
                t.flushes == s.flushes + [Flush(C.StartFlush(t.base.buffer), Spliced(t.base))])
  {
  }

  lemma EnvKeepsInv(s: State, step: C.Label)
    requires Inv(s) && Enabled(s, Env(step))
    ensures Inv(DoEnv(s, step))
  {
    var t := DoEnv(s, step);
    EnvKeepsTraced(s, step);
    if !step.Crash? {
      EnvStarts(s, step);
      forall i | 0 <= i < |s.flushes|
        ensures Placed(t.base, s.flushes[i])
      {
        GrowthKeepsPlaced(s.base, t.base, s.flushes[i]);
      }
      if t.base.buffer != [] {
        StartIsPlaced(t.base);
      }
    }
  }

  /** Commits do not pass what this process was handed. */
  lemma CommitStaysBehind(base: C.State, batch: seq<C.Message>)
    requires C.Shape(base)
    requires forall k :: 0 <= k < |batch| ==>
               batch[k].partition < |base.position| && batch[k].offset < base.position[batch[k].partition]
    ensures C.Shape(base.(committed := C.CommitAll(base.committed, C.Latest(batch))))
  {
    var latest := C.Latest(batch);
    forall p | p in latest && p < |base.position|
      ensures latest[p] < base.position[p]
    {
      C.LatestIsMaximum(batch);
      var k :| 0 <= k < |batch| && batch[k].partition == p && batch[k].offset == latest[p];
    }
  }

  lemma OfKeepsShape(s: State, i: nat, step: C.Label)
    requires Traced(s.base) && Enabled(s, Of(i, step)) && Placed(s.base, s.flushes[i])
    ensures C.Shape(DoOf(s, i, step).base)
  {
    if step.CommitBatch? {
      var f := s.flushes[i];
      assert forall k :: 0 <= k < |f.flight.batch| ==> f.flight.batch[k] == s.base.received[f.from + k];
      CommitStaysBehind(s.base, f.flight.batch);
    }
  }

  /** What a step of a flush does to the buffer, and what it leaves alone. */
  lemma OfStep(s: State, i: nat, step: C.Label)
    requires Enabled(s, Of(i, step))
    ensures var t := DoOf(s, i, step);
            && t.base.received == s.base.received && t.base.position == s.base.position && t.base.logs == s.base.logs
            && t.base.buffer == (if t.flushes[i].flight.Idle? then C.Splice(s.base.buffer, |s.flushes[i].flight.batch|)
                                 else s.base.buffer)
            && t.flushes == s.flushes[i := Flush(t.flushes[i].flight, s.flushes[i].from)]
            && (!t.flushes[i].flight.Idle? ==> t.flushes[i].flight.batch == s.flushes[i].flight.batch)
  {
  }

  lemma OfKeepsPlaced(s: State, i: nat, step: C.Label)
    requires Enabled(s, Of(i, step)) && Placed(s.base, s.flushes[i])
    ensures Placed(s.base, DoOf(s, i, step).flushes[i])
  {
  }

  lemma SpliceKeepsTraced(a: C.State, b: C.State, n: nat)
    requires Traced(a) && C.Shape(b) && b.flight.Idle?
    requires b.received == a.received && b.position == a.position && b.logs == a.logs
    requires b.buffer == C.Splice(a.buffer, n) || b.buffer == a.buffer
    ensures Traced(b) && Spliced(a) <= Spliced(b)
  {
  }

  lemma OfKeepsInv(s: State, i: nat, step: C.Label)
    requires Inv(s) && Enabled(s, Of(i, step))
    ensures Inv(DoOf(s, i, step))
  {
    var t := DoOf(s, i, step);
    OfStep(s, i, step);
    OfKeepsShape(s, i, step);
    OfKeepsPlaced(s, i, step);
    SpliceKeepsTraced(s.base, t.base, |s.flushes[i].flight.batch|);
    forall k | 0 <= k < |t.flushes|
      ensures Placed(t.base, t.flushes[k])
    {
      GrowthKeepsPlaced(s.base, t.base, t.flushes[k]);
    }
  }

  lemma StepKeepsInv(s: State, l: Label)
    requires Inv(s)
    ensures Inv(Do(s, l))
  {
    if Enabled(s, l) {
      match l
      case Env(step) => EnvKeepsInv(s, step);
      case Of(i, step) => OfKeepsInv(s, i, step);
    }
  }

  lemma {:induction false} ExecKeepsInv(s: State, labels: seq<Label>)
    requires Inv(s)
    ensures Inv(Exec(s, labels))
  {
    if labels == [] {
    } else {
      ExecKeepsInv(s, labels[..|labels| - 1]);
      StepKeepsInv(Exec(s, labels[..|labels| - 1]), labels[|labels| - 1]);
    }
  }

  lemma InitInv(partitions: nat)
    ensures Inv(Init(partitions))
  {
  }

  /** Where the messages of a running flush come from. */
  lemma BatchHasPartitions(s: State, i: nat)
    requires Inv(s) && i < |s.flushes| && !s.flushes[i].flight.Idle?
    ensures forall k :: 0 <= k < |s.flushes[i].flight.batch| ==>
              s.flushes[i].flight.batch[k].partition < |s.base.committed|
  {
    var f := s.flushes[i];
    assert Placed(s.base, f);
    forall k | 0 <= k < |f.flight.batch|
      ensures f.flight.batch[k].partition < |s.base.committed|
    {
      assert f.flight.batch[k] == s.base.received[f.from + k];
    }
  }

  /** The push of a delivery alone, before it is seen whether a flush begins. */
  function Pushed(s: State, p: nat): State
    requires C.Enabled(s.base, C.Deliver(p))
  {
    s.(base := C.DoDeliver(s.base, p).(flight := C.Idle))
  }

  lemma PushKeepsInv(s: State, p: nat)
    requires Inv(s) && C.Enabled(s.base, C.Deliver(p))
    ensures Inv(Pushed(s, p))
  {
    var t := Pushed(s, p);
    DeliverKeepsTraced(s.base, p);
    forall i | 0 <= i < |s.flushes|
      ensures Placed(t.base, s.flushes[i])
    {
      GrowthKeepsPlaced(s.base, t.base, s.flushes[i]);
    }
  }

  /** A delivery is the push, and the beginning of a flush once three are waiting and `flushing` is false. */
  lemma DeliverIsPush(s: State, p: nat)
    requires s.base.flight.Idle? && C.Enabled(s.base, C.Deliver(p))
    ensures var pushed := Pushed(s, p);
            Do(s, Env(C.Deliver(p))) ==
            if C.BATCH_SIZE <= |pushed.base.buffer| && !s.flushing then Do(pushed, Env(C.Shutdown)) else pushed
  {
  }

  /** The commit of flush `i`, in full. */
  lemma CommitIs(s: State, i: nat, fault: C.Fault)
    requires i < |s.flushes| && s.flushes[i].flight.Committing?
    ensures var f := s.flushes[i];
            var (batch, done) := (f.flight.batch, fault.NoFault?);
            Do(s, Of(i, C.CommitBatch(fault))) ==
            State(s.base.(committed := if fault.Refused? then s.base.committed
                                       else C.CommitAll(s.base.committed, C.Latest(batch)),
                          buffer := if done then C.Splice(s.base.buffer, |batch|) else s.base.buffer,
                          settled := if done then s.base.settled + [C.Completed(batch)] else s.base.settled,
                          flight := C.Idle),
                  s.flushes[i := f.(flight := if done then C.Idle else C.Saving(batch, f.flight.attempt + 1, true))],
                  s.flushing && !done)
  {
  }

  // ------------------------------------------------- what a splice removes

  /** The step with which flush `i` completes or gives up. */
  predicate Ends(s: State, i: nat, step: C.Label) {
    Enabled(s, Of(i, step)) && C.Do(At(s, i), step).flight.Idle?
  }

  predicate Within(part: seq<C.Message>, whole: seq<C.Message>) {
    forall m :: m in part ==> m in whole
  }

  /** From `s` to `t`, only events of the batch of flush `i` are taken off the buffer. */
  predicate Own(s: State, t: State, i: nat)
    requires i < |s.flushes| && !s.flushes[i].flight.Idle?
  {
    && |t.base.buffer| <= |s.base.buffer|
    && Within(s.base.buffer[..|s.base.buffer| - |t.base.buffer|], s.flushes[i].flight.batch)
  }

  /** The end of the range that the splice of a flush removes from what was received. */
  function Until(base: C.State, f: Flush): int
    requires !f.flight.Idle?
  {
    Min(Spliced(base) + |f.flight.batch|, |base.received|)
  }

  /** A window of `n` events of a sequence without repetitions, compared with an earlier one. */
  lemma WindowsNestIff(all: seq<C.Message>, from: nat, n: nat, later: nat)
    requires C.InOrder(all) && 0 < n && from <= later <= |all| && from + n <= |all|
    ensures Within(all[later..Min(later + n, |all|)], all[from..from + n]) <==>
            later == from || |all| <= from + n || later == |all|
  {
    var end := Min(later + n, |all|);
    if later == from || |all| <= from + n || later == |all| {
      forall m | m in all[later..end]
        ensures m in all[from..from + n]
      {
        var k :| later <= k < end && all[k] == m;
        assert all[from..from + n][k - from] == m;
      }
    } else {
      var last := all[end - 1];
      assert last in all[later..end];
      assert forall k :: from <= k < from + n ==> all[k] != last;
    }
  }

  /** What a splice takes off the front of the end of a sequence. */
  lemma TakenIs(all: seq<C.Message>, rest: seq<C.Message>, n: nat)
    requires |rest| <= |all| && rest == all[|all| - |rest|..]
    ensures rest[..|rest| - |C.Splice(rest, n)|] == all[|all| - |rest|..Min(|all| - |rest| + n, |all|)]
  {
  }

  /** The condition, in terms of the sequence received alone. */
  lemma NestedIff(base: C.State, f: Flush)
    requires Traced(base) && Placed(base, f) && !f.flight.Idle?
    ensures var n := |f.flight.batch|;
            Within(base.received[Spliced(base)..Until(base, f)], f.flight.batch) <==>
            Spliced(base) == f.from || |base.received| <= f.from + n || base.buffer == []
  {
    WindowsNestIff(base.received, f.from, |f.flight.batch|, Spliced(base));
  }

  lemma OwnIff(s: State, t: State, i: nat)
    requires Traced(s.base) && i < |s.flushes| && Placed(s.base, s.flushes[i]) && !s.flushes[i].flight.Idle?
    requires t.base.buffer == C.Splice(s.base.buffer, |s.flushes[i].flight.batch|)
    ensures var behind := s.flushes[i].from + |s.flushes[i].flight.batch|;
            Own(s, t, i) <==>
            Spliced(s.base) == s.flushes[i].from || |s.base.received| <= behind || s.base.buffer == []
  {
    TakenIs(s.base.received, s.base.buffer, |s.flushes[i].flight.batch|);
    NestedIff(s.base, s.flushes[i]);
  }

  lemma EndSplices(s: State, i: nat, step: C.Label)
    requires Ends(s, i, step)
    ensures Do(s, Of(i, step)).base.buffer == C.Splice(s.base.buffer, |s.flushes[i].flight.batch|)
  {
  }

  lemma EndIsOwnIff(s: State, i: nat, step: C.Label)
    requires Inv(s) && Ends(s, i, step)
    ensures var behind := s.flushes[i].from + |s.flushes[i].flight.batch|;
            Own(s, Do(s, Of(i, step)), i) <==>
            Spliced(s.base) == s.flushes[i].from || |s.base.received| <= behind || s.base.buffer == []
  {
    EndSplices(s, i, step);
    OwnIff(s, Do(s, Of(i, step)), i);
  }

  /**
    In every run, whatever flushes overlap: a splice is confined to its own batch exactly when no other flush has
    spliced since the batch was captured, or nothing that came after the batch is left to be taken.
   */
  lemma SpliceIsOwnIff(partitions: nat, labels: seq<Label>, i: nat, step: C.Label)
    requires Ends(Exec(Init(partitions), labels), i, step)
    ensures var s := Exec(Init(partitions), labels);
            var behind := s.flushes[i].from + |s.flushes[i].flight.batch|;
            Own(s, Do(s, Of(i, step)), i) <==>
            Spliced(s.base) == s.flushes[i].from || |s.base.received| <= behind || s.base.buffer == []
  {
    InitInv(partitions);
    ExecKeepsInv(Init(partitions), labels);
    EndIsOwnIff(Exec(Init(partitions), labels), i, step);
  }

  // --------------------------------------------------- one flush at a time

  /** No shutdown begins while a flush is running. */
  predicate Calm(s: State, labels: seq<Label>) {
    labels == [] ||
    var init := labels[..|labels| - 1];
    Calm(s, init) && !(labels[|labels| - 1] == Env(C.Shutdown) && Exec(s, init).flushing)
  }

  predicate OwnStep(s: State, l: Label) {
    l.Of? && Ends(s, l.flush, l.step) ==> Own(s, Do(s, l), l.flush)
  }

  /** Every splice of the run is confined to the batch of its flush. */
  predicate AllOwn(s: State, labels: seq<Label>) {
    labels == [] ||
    var init := labels[..|labels| - 1];
    AllOwn(s, init) && OwnStep(Exec(s, init), labels[|labels| - 1])
  }

  /** Only the latest flush may be running, and nothing has been spliced since it began. */
  predicate Solo(s: State) {
    && (forall i :: 0 <= i < |s.flushes| - 1 ==> s.flushes[i].flight.Idle?)
    && (s.flushing <==> s.flushes != [] && !s.flushes[|s.flushes| - 1].flight.Idle?)
    && (s.flushing ==> s.flushes[|s.flushes| - 1].from == Spliced(s.base))
  }

  /** The consumer with its one flight. */
  function Merge(s: State): C.State
    requires Solo(s)
  {
    if s.flushing then At(s, |s.flushes| - 1) else s.base
  }

  /** What the step is for a consumer with one flight. */
  function Projected(s: State, l: Label): seq<C.Label> {
    match l
    case Env(step) => if FlushStep(step) then [] else [step]
    case Of(i, step) => if FlushStep(step) && i + 1 == |s.flushes| then [step] else []
  }

  lemma SoloEnv(s: State, step: C.Label)
    requires s.base.flight.Idle? && Solo(s) && Enabled(s, Env(step)) && !(step.Shutdown? && s.flushing)
    ensures Solo(DoEnv(s, step)) && Merge(DoEnv(s, step)) == C.Do(Merge(s), step)
  {
  }

  lemma SoloOf(s: State, i: nat, step: C.Label)
    requires s.base.flight.Idle? && Solo(s) && Enabled(s, Of(i, step))
    ensures i + 1 == |s.flushes| && s.flushing
    ensures Solo(DoOf(s, i, step)) && Merge(DoOf(s, i, step)) == C.Do(Merge(s), step)
  {
    OfStep(s, i, step);
  }

  lemma SoloOwns(s: State, l: Label)
    requires Inv(s) && Solo(s)
    ensures OwnStep(s, l)
  {
    if l.Of? && Ends(s, l.flush, l.step) {
      EndIsOwnIff(s, l.flush, l.step);
    }
  }

  /** A step that is not enabled here is not enabled for the consumer with one flight either. */
  lemma SoloRefuses(s: State, l: Label)
    requires s.base.flight.Idle? && Solo(s) && !Enabled(s, l) && Projected(s, l) != []
    ensures !C.Enabled(Merge(s), l.step)
  {
  }

  lemma SoloStep(s: State, l: Label)
    requires s.base.flight.Idle? && Solo(s) && !(l == Env(C.Shutdown) && s.flushing)
    ensures Solo(Do(s, l)) && Merge(Do(s, l)) == C.Exec(Merge(s), Projected(s, l))
  {
    if Enabled(s, l) {
      match l
      case Env(step) =>
        SoloEnv(s, step);
        C.ExecStep(Merge(s), [], step);
      case Of(i, step) =>
        SoloOf(s, i, step);
        C.ExecStep(Merge(s), [], step);
    } else if Projected(s, l) != [] {
      SoloRefuses(s, l);
      C.ExecStep(Merge(s), [], l.step);
    }
  }

  lemma {:induction false} CalmRuns(s: State, labels: seq<Label>) returns (trace: seq<C.Label>)
    requires Inv(s) && Solo(s) && Calm(s, labels)
    ensures Solo(Exec(s, labels)) && Merge(Exec(s, labels)) == C.Exec(Merge(s), trace) && AllOwn(s, labels)
  {
    if labels == [] {
      trace := [];
    } else {
      var (init, l) := (labels[..|labels| - 1], labels[|labels| - 1]);
      trace := CalmRuns(s, init);
      var before := Exec(s, init);
      ExecKeepsInv(s, init);
      SoloStep(before, l);
      SoloOwns(before, l);
      C.ExecThen(Merge(s), trace, Projected(before, l));
      trace := trace + Projected(before, l);
    }
  }

  /**
    As long as no shutdown begins during a flush, flushes never overlap: the run is a run of module OrderConsumer,
    so all that is proved of those holds of it, and every splice removes events of its own batch only.
   */
  lemma CalmRunsAreConsumerRuns(partitions: nat, labels: seq<Label>) returns (trace: seq<C.Label>)
    requires Calm(Init(partitions), labels)
    ensures var s := Exec(Init(partitions), labels);
            && Solo(s) && Merge(s) == C.Exec(C.Init(partitions), trace)
            && AllOwn(Init(partitions), labels)
  {
    InitInv(partitions);
    trace := CalmRuns(Init(partitions), labels);
  }

  // ---------------------------------------------- a shutdown during a flush

  /** Only flush `i` has moved, and it has used up its attempts. */
  predicate RanOut(s: State, t: State, i: nat)
    requires i < |s.flushes|
  {
    && t.base == s.base && t.flushing == s.flushing && |t.flushes| == |s.flushes|
    && (forall k :: 0 <= k < |s.flushes| && k != i ==> t.flushes[k] == s.flushes[k])
    && t.flushes[i].from == s.flushes[i].from
    && t.flushes[i].flight.Saving? && t.flushes[i].flight.attempt == C.MAX_RETRIES + 1
    && !s.flushes[i].flight.Idle? && t.flushes[i].flight.batch == s.flushes[i].flight.batch
  }

  lemma RefuseOnce(s: State, i: nat, step: C.Label)
    requires Inv(s) && i < |s.flushes| && !s.flushes[i].flight.Idle? && s.flushes[i].flight.attempt <= C.MAX_RETRIES
    requires step == if s.flushes[i].flight.Saving? then C.SaveBatch(C.Refused) else C.CommitBatch(C.Refused)
    ensures var f := s.flushes[i].flight;
            Do(s, Of(i, step)) ==
            s.(flushes := s.flushes[i := Flush(C.Saving(f.batch, f.attempt + 1, C.Persisted(f)), s.flushes[i].from)])
  {
  }

  lemma {:induction false} RunOut(s: State, i: nat) returns (labels: seq<Label>)
    requires Inv(s) && i < |s.flushes| && !s.flushes[i].flight.Idle?
    ensures RanOut(s, Exec(s, labels), i) && Env(C.Shutdown) !in labels
    decreases C.MAX_RETRIES + 1 - s.flushes[i].flight.attempt
  {
    var f := s.flushes[i].flight;
    if C.MAX_RETRIES < f.attempt {
      labels := [];
    } else {
      var step := if f.Saving? then C.SaveBatch(C.Refused) else C.CommitBatch(C.Refused);
      var next := Do(s, Of(i, step));
      RefuseOnce(s, i, step);
      StepKeepsInv(s, Of(i, step));
      var rest := RunOut(next, i);
      ExecStep(s, [], Of(i, step));
      assert [] + [Of(i, step)] == [Of(i, step)];
      ExecThen(s, [Of(i, step)], rest);
      labels := [Of(i, step)] + rest;
    }
  }

  lemma {:induction false} WithoutShutdownCalm(s: State, labels: seq<Label>)
    requires Env(C.Shutdown) !in labels
    ensures Calm(s, labels)
  {
    if labels == [] {
    } else {
      WithoutShutdownCalm(s, labels[..|labels| - 1]);
    }
  }

  /** Two flushes run over the same first events, and at least one event lies behind both batches. */
  predicate Overlapping(s: State, a: nat, b: nat) {
    && a < b < |s.flushes|
    && !s.flushes[a].flight.Idle? && !s.flushes[b].flight.Idle?
    && s.flushes[a].from == s.flushes[b].from == Spliced(s.base)
    && s.flushes[b].from + |s.flushes[b].flight.batch| < |s.base.received|
    && s.flushes[a].from + |s.flushes[a].flight.batch| < |s.base.received|
  }

  /** The shutdown flush captures the same first events as the flush that is running. */
  lemma ShutdownStarts(s: State)
    requires Inv(s) && Solo(s) && s.flushing
    ensures s.base.buffer != []
    ensures var t := Do(s, Env(C.Shutdown));
            && Inv(t) && t.base == s.base && t.flushing
            && t.flushes == s.flushes + [Flush(C.StartFlush(s.base.buffer), Spliced(s.base))]
  {
    StepKeepsInv(s, Env(C.Shutdown));
  }

  lemma ProduceOpens(s: State, m: C.Message)
    requires Inv(s) && m in s.base.received
    ensures var t := Do(s, Env(C.Produce(m.partition, m.dto)));
            && Inv(t) && t.flushes == s.flushes && t.flushing == s.flushing
            && t.base.received == s.base.received && t.base.buffer == s.base.buffer
            && C.Enabled(t.base, C.Deliver(m.partition))
  {
    StepKeepsInv(s, Env(C.Produce(m.partition, m.dto)));
  }

  /** During a flush, an arriving event only lengthens the buffer. */
  lemma DeliverLengthens(s: State, p: nat)
    requires Inv(s) && s.flushing && C.Enabled(s.base, C.Deliver(p))
    ensures var t := Do(s, Env(C.Deliver(p)));
            && Inv(t) && t.flushing && t.flushes == s.flushes
            && |t.base.received| == |s.base.received| + 1 && Spliced(t.base) == Spliced(s.base)
  {
    StepKeepsInv(s, Env(C.Deliver(p)));
  }

  /** One more event arrives after the shutdown has begun. */
  lemma ShutdownOverlaps(s: State) returns (labels: seq<Label>)
    requires Inv(s) && Solo(s) && s.flushing
    ensures Env(C.Shutdown) !in labels
    ensures var t := Exec(Do(s, Env(C.Shutdown)), labels);
            Inv(t) && Overlapping(t, |s.flushes| - 1, |s.flushes|)
  {
    ShutdownStarts(s);
    var t := Do(s, Env(C.Shutdown));
    var m := s.base.buffer[0];
    assert m == t.base.received[Spliced(t.base)];
    ProduceOpens(t, m);
    var produce, deliver := Env(C.Produce(m.partition, m.dto)), Env(C.Deliver(m.partition));
    ExecStep(t, [], produce);
    assert [] + [produce] == [produce];
    DeliverLengthens(Do(t, produce), m.partition);
    ExecStep(t, [produce], deliver);
    labels := [produce] + [deliver];
  }

  /** Flush `b` is running, and its splice would start behind its batch's first event and reach past its last. */
  predicate Overtaken(s: State, b: nat) {
    && b < |s.flushes| && !s.flushes[b].flight.Idle?
    && Spliced(s.base) != s.flushes[b].from
    && s.flushes[b].from + |s.flushes[b].flight.batch| < |s.base.received|
    && s.base.buffer != []
  }

  lemma GiveUpOvertakes(s: State, a: nat, b: nat)
    requires Inv(s) && Overlapping(s, a, b)
    requires s.flushes[a].flight.Saving? && s.flushes[a].flight.attempt == C.MAX_RETRIES + 1
    ensures Inv(Do(s, Of(a, C.GiveUp))) && Overtaken(Do(s, Of(a, C.GiveUp)), b)
  {
    StepKeepsInv(s, Of(a, C.GiveUp));
    OfStep(s, a, C.GiveUp);
  }

  lemma OvertakenTakesForeign(s: State, b: nat)
    requires Inv(s) && Overtaken(s, b)
    requires s.flushes[b].flight.Saving? && s.flushes[b].flight.attempt == C.MAX_RETRIES + 1
    ensures !OwnStep(s, Of(b, C.GiveUp))
  {
    EndIsOwnIff(s, b, C.GiveUp);
  }

  /** The first flush fails. */
  lemma FirstGivesUp(s: State, a: nat, b: nat) returns (labels: seq<Label>)
    requires Inv(s) && Overlapping(s, a, b)
    ensures Env(C.Shutdown) !in labels
    ensures Inv(Exec(s, labels)) && Overtaken(Exec(s, labels), b)
  {
    labels := RunOut(s, a);
    ExecKeepsInv(s, labels);
    GiveUpOvertakes(Exec(s, labels), a, b);
    ExecStep(s, labels, Of(a, C.GiveUp));
    labels := labels + [Of(a, C.GiveUp)];
  }

  /** An overtaken flush fails too, and its splice takes what lies behind its batch. */
  lemma SecondTakesForeign(s: State, b: nat) returns (labels: seq<Label>)
    requires Inv(s) && Overtaken(s, b)
    ensures Env(C.Shutdown) !in labels && !AllOwn(s, labels)
  {
    var init := RunOut(s, b);
    ExecKeepsInv(s, init);
    OvertakenTakesForeign(Exec(s, init), b);
    labels := init + [Of(b, C.GiveUp)];
    assert labels[..|labels| - 1] == init;
  }

  lemma {:induction false} AllOwnThen(s: State, before: seq<Label>, after: seq<Label>)
    ensures AllOwn(s, before + after) <==> AllOwn(s, before) && AllOwn(Exec(s, before), after)
  {
    if after == [] {
      assert before + after == before;
    } else {
      var n := |after| - 1;
      assert (before + after)[..|before| + n] == before + after[..n];
      ExecThen(s, before, after[..n]);
      AllOwnThen(s, before, after[..n]);
    }
  }

  /** A shutdown during a flush, a late event, and both flushes failing. */
  lemma FlushingIsUnsafe(s: State) returns (after: seq<Label>)
    requires Inv(s) && Solo(s) && s.flushing
    ensures Calm(Do(s, Env(C.Shutdown)), after) && !AllOwn(Do(s, Env(C.Shutdown)), after)
  {
    var t := Do(s, Env(C.Shutdown));
    var arrival := ShutdownOverlaps(s);
    var u := Exec(t, arrival);
    var first := FirstGivesUp(u, |s.flushes| - 1, |s.flushes|);
    var second := SecondTakesForeign(Exec(u, first), |s.flushes|);
    AllOwnThen(u, first, second);
    AllOwnThen(t, arrival, first + second);
    after := arrival + (first + second);
    WithoutShutdownCalm(t, after);
  }

  lemma IdleIsSafe(s: State, after: seq<Label>)
    requires Inv(s) && Solo(s) && !s.flushing && Calm(Do(s, Env(C.Shutdown)), after)
    ensures AllOwn(Do(s, Env(C.Shutdown)), after)
  {
    StepKeepsInv(s, Env(C.Shutdown));
    SoloStep(s, Env(C.Shutdown));
    var _ := CalmRuns(Do(s, Env(C.Shutdown)), after);
  }

  /** The state a calm run leads to. */
  lemma CalmState(partitions: nat, labels: seq<Label>)
    requires Calm(Init(partitions), labels)
    ensures Inv(Exec(Init(partitions), labels)) && Solo(Exec(Init(partitions), labels))
  {
    InitInv(partitions);
    ExecKeepsInv(Init(partitions), labels);
    var _ := CalmRuns(Init(partitions), labels);
  }

  /**
    The test that `onModuleDestroy` leaves out is exactly what keeps flushes from splicing away events they never
    handled: with events buffered, a shutdown beginning now is harmless in every continuation if and only if
    `flushing` is false.
   */
  lemma ShutdownIsSafeIffNotFlushing(partitions: nat, labels: seq<Label>)
    requires Calm(Init(partitions), labels) && Exec(Init(partitions), labels).base.buffer != []
    ensures var s := Exec(Init(partitions), labels);
            var t := Do(s, Env(C.Shutdown));
            !s.flushing <==> forall after :: Calm(t, after) ==> AllOwn(t, after)
  {
    CalmState(partitions, labels);
    var s := Exec(Init(partitions), labels);
    var t := Do(s, Env(C.Shutdown));
    if s.flushing {
      var after := FlushingIsUnsafe(s);
    } else {
      forall after | Calm(t, after)
        ensures AllOwn(t, after)
      {
        IdleIsSafe(s, after);
      }
    }
  }

  // --------------------------------------------- a flush beside sleeping ones

  /** What a step of the consumer is when it is flush `i` that moves. */
  function Lift(i: nat, step: C.Label): Label {
    if FlushStep(step) then Of(i, step) else Env(step)
  }

  function Lifted(i: nat, steps: seq<C.Label>): seq<Label> {
    seq(|steps|, k requires 0 <= k < |steps| => Lift(i, steps[k]))
  }

  predicate OfFlush(step: C.Label) {
    FlushStep(step) || step.Deliver?
  }

  predicate OneFlush(steps: seq<C.Label>) {
    forall k :: 0 <= k < |steps| ==> OfFlush(steps[k])
  }

  /** Of the flushes only `i` may differ. */
  predicate OthersSame(s: State, t: State, i: nat) {
    && |t.flushes| == |s.flushes|
    && forall k :: 0 <= k < |s.flushes| && k != i ==> t.flushes[k] == s.flushes[k]
  }

  lemma AsleepStep(s: State, i: nat, step: C.Label)
    requires s.base.flight.Idle? && s.flushing && i < |s.flushes| && !s.flushes[i].flight.Idle? && OfFlush(step)
    ensures var t := Do(s, Lift(i, step));
            && OthersSame(s, t, i) && t.base.flight.Idle? && At(t, i) == C.Do(At(s, i), step)
            && t.flushing == !t.flushes[i].flight.Idle?
  {
  }

  /**
    While the other flushes are asleep, a flush and the events that arrive during it are a run of the consumer with
    that flush alone; when it ends, `flushing` is false although others may not be done.
   */
  lemma {:induction false} WhileOthersSleep(s: State, i: nat, steps: seq<C.Label>)
    requires s.base.flight.Idle? && s.flushing && i < |s.flushes| && !s.flushes[i].flight.Idle?
    requires OneFlush(steps) && StillRunning(At(s, i), steps)
    ensures var t := Exec(s, Lifted(i, steps));
            && OthersSame(s, t, i) && t.base.flight.Idle? && At(t, i) == C.Exec(At(s, i), steps)
            && t.flushing == !t.flushes[i].flight.Idle?
  {
    if steps == [] {
    } else {
      var n := |steps| - 1;
      assert Lifted(i, steps)[..n] == Lifted(i, steps[..n]);
      WhileOthersSleep(s, i, steps[..n]);
      AsleepStep(Exec(s, Lifted(i, steps[..n])), i, steps[n]);
    }
  }
}
