/**
  The leaky-bucket script (src/redis/redis.service.ts:37-58) over whole traces of requests.

  The script keeps a fractional fill level.  Here a level is held in thousandths of a request:
  `elapsed_ms / 1000 * leak_rate` is then the integer `elapsed * leak`, so the arithmetic is exact.
  `RedisService.LeakyBucket` connects these definitions to the script's own real arithmetic.
 */
module LeakyBucket {
  import opened Common

  datatype Limits = Limits(capacity: int, leak: int) {
    predicate Valid() {
      0 < capacity && 0 < leak
    }
  }

  /** The Redis hash: missing, or a level (thousandths) with the time (ms) it was written. */
  datatype Bucket = Absent | Stored(level: int, last: int)

  function Drained(q: Limits, b: Bucket, now: int): int {
    match b
    case Absent => 0
    case Stored(level, last) => Max(0, level - (now - last) * q.leak)
  }

  predicate Admits(q: Limits, b: Bucket, now: int) {
    Drained(q, b, now) + 1000 <= 1000 * q.capacity
  }

  function Next(q: Limits, b: Bucket, now: int): Bucket {
    Stored(Drained(q, b, now) + (if Admits(q, b, now) then 1000 else 0), now)
  }

  // ---------------------------------------------------------------- traces

  predicate NonDecreasing(ts: seq<int>) {
    forall i, j :: 0 <= i <= j < |ts| ==> ts[i] <= ts[j]
  }

  /** The bucket after the first `n` requests of the trace. */
  function After(q: Limits, b: Bucket, ts: seq<int>, n: nat): Bucket
    requires n <= |ts|
  {
    if n == 0 then b else Next(q, After(q, b, ts, n - 1), ts[n - 1])
  }

  /** The answers of the rate limiter, one per request. */
  function Answers(q: Limits, b: Bucket, ts: seq<int>): (f: seq<bool>)
    ensures |f| == |ts|
    ensures forall i {:trigger f[i]} :: 0 <= i < |ts| ==> f[i] == Admits(q, After(q, b, ts, i), ts[i])
  {
    AnswersUpTo(q, b, ts, |ts|)
  }

  function AnswersUpTo(q: Limits, b: Bucket, ts: seq<int>, n: nat): (f: seq<bool>)
    requires n <= |ts|
    ensures |f| == n
    ensures forall i {:trigger f[i]} :: 0 <= i < n ==> f[i] == Admits(q, After(q, b, ts, i), ts[i])
  {
    if n == 0 then []
    else AnswersUpTo(q, b, ts, n - 1) + [Admits(q, After(q, b, ts, n - 1), ts[n - 1])]
  }

  /** How many of the requests `k .. n` are admitted by the decisions `f`. */
  function Tally(f: seq<bool>, k: nat, n: nat): nat
    requires k <= n <= |f|
  {
    if k == n then 0 else Tally(f, k, n - 1) + (if f[n - 1] then 1 else 0)
  }

  /** Thousandths by which the requests `k .. n` outweigh what leaked away between the first and last of them. */
  function Excess(q: Limits, ts: seq<int>, f: seq<bool>, k: nat, n: nat): int
    requires k < n <= |ts| == |f|
  {
    1000 * Tally(f, k, n) - q.leak * (ts[n - 1] - ts[k])
  }

  /** No window of requests admits more than the capacity plus what leaks during the window. */
  ghost predicate Complies(q: Limits, ts: seq<int>, f: seq<bool>) {
    |f| == |ts| &&
    forall k, n :: 0 <= k < n <= |ts| ==> Excess(q, ts, f, k, n) <= 1000 * q.capacity
  }

  // ------------------------------------- the level is the heaviest window

  /** The fill level after `n` requests under arbitrary admission decisions. */
  function Fill(q: Limits, ts: seq<int>, f: seq<bool>, n: nat): int
    requires n <= |ts| == |f|
    decreases n, 0
  {
    if n == 0 then 0
    else Residue(q, ts, f, n - 1) + (if f[n - 1] then 1000 else 0)
  }

  /** What is left of that level when request `n` arrives. */
  function Residue(q: Limits, ts: seq<int>, f: seq<bool>, n: nat): int
    requires n < |ts| == |f|
    decreases n, 1
  {
    if n == 0 then 0 else Max(0, Fill(q, ts, f, n) - (ts[n] - ts[n - 1]) * q.leak)
  }

  lemma LeakAdds(leak: int, a: int, b: int, c: int)
    ensures leak * (b - a) + (c - b) * leak == leak * (c - a)
  {
  }

  /** The heaviest window ending at the last of `n` requests weighs exactly the level. */
  lemma {:induction false} FillIsHeaviestWindow(q: Limits, ts: seq<int>, f: seq<bool>, n: nat) returns (k: nat)
    requires 0 < n <= |ts| == |f|
    requires q.Valid() && NonDecreasing(ts)
    ensures k < n && Excess(q, ts, f, k, n) == Fill(q, ts, f, n)
    ensures forall j :: 0 <= j < n ==> Excess(q, ts, f, j, n) <= Fill(q, ts, f, n)
  {
    LastWindow(q, ts, f, n);
    k := n - 1;
    if n <= 1 {
    } else {
      var k' := FillIsHeaviestWindow(q, ts, f, n - 1);
      if 0 < Fill(q, ts, f, n - 1) - (ts[n - 1] - ts[n - 2]) * q.leak {
        WindowGrows(q, ts, f, k', n);
        k := k';
      }
      forall j | 0 <= j < n
        ensures Excess(q, ts, f, j, n) <= Fill(q, ts, f, n)
      {
        if j < n - 1 {
          WindowGrows(q, ts, f, j, n);
        }
      }
    }
  }

  lemma LastWindow(q: Limits, ts: seq<int>, f: seq<bool>, n: nat)
    requires 0 < n <= |ts| == |f|
    ensures Excess(q, ts, f, n - 1, n) == if f[n - 1] then 1000 else 0
  {
    assert Tally(f, n - 1, n - 1) == 0 && ts[n - 1] - ts[n - 1] == 0;
    assert q.leak * 0 == 0;
  }

  lemma WindowGrows(q: Limits, ts: seq<int>, f: seq<bool>, j: nat, n: nat)
    requires 1 < n <= |ts| == |f| && j < n - 1
    ensures Excess(q, ts, f, j, n)
         == Excess(q, ts, f, j, n - 1) - (ts[n - 1] - ts[n - 2]) * q.leak + (if f[n - 1] then 1000 else 0)
  {
    LeakAdds(q.leak, ts[j], ts[n - 2], ts[n - 1]);
  }

  /** A fresh bucket's stored level is the fill level of its own answers. */
  lemma {:induction false} LevelIsFill(q: Limits, ts: seq<int>, n: nat)
    requires n <= |ts|
    ensures 0 < n ==> After(q, Absent, ts, n) == Stored(Fill(q, ts, Answers(q, Absent, ts), n), ts[n - 1])
    ensures n < |ts| ==> Drained(q, After(q, Absent, ts, n), ts[n]) == Residue(q, ts, Answers(q, Absent, ts), n)
  {
    if n == 0 {
    } else {
      LevelIsFill(q, ts, n - 1);
    }
  }

  /**
    The stored level is the maximum, over all earlier requests k, of what was admitted since k less what leaked
    since k.
   */
  lemma LevelIsHeaviestWindow(q: Limits, ts: seq<int>, n: nat)
    requires q.Valid() && NonDecreasing(ts) && 0 < n <= |ts|
    ensures var f := Answers(q, Absent, ts);
            var level := After(q, Absent, ts, n).level;
            && (forall k :: 0 <= k < n ==> Excess(q, ts, f, k, n) <= level)
            && (exists k :: 0 <= k < n && Excess(q, ts, f, k, n) == level)
  {
    LevelIsFill(q, ts, n);
    var k := FillIsHeaviestWindow(q, ts, Answers(q, Absent, ts), n);
  }

  /** Admitting request `n` after the decisions `f` would overfill the window that starts at request `k`. */
  predicate WouldOverflow(q: Limits, ts: seq<int>, f: seq<bool>, k: nat, n: nat)
    requires k <= n < |ts| == |f|
  {
    1000 * q.capacity + q.leak * (ts[n] - ts[k]) < 1000 * (Tally(f, k, n) + 1)
  }

  lemma OverflowStep(q: Limits, ts: seq<int>, f: seq<bool>, k: nat, n: nat)
    requires 0 < n < |ts| == |f| && k < n
    ensures WouldOverflow(q, ts, f, k, n) <==>
            1000 * q.capacity < Excess(q, ts, f, k, n) - (ts[n] - ts[n - 1]) * q.leak + 1000
  {
    LeakAdds(q.leak, ts[k], ts[n - 1], ts[n]);
  }

  /** Sound and complete: a request is rejected exactly when admitting it would overfill some window. */
  lemma RejectedIffWindowOverflows(q: Limits, ts: seq<int>, n: nat)
    requires q.Valid() && NonDecreasing(ts) && n < |ts|
    ensures !Answers(q, Absent, ts)[n] <==>
            exists k :: 0 <= k <= n && WouldOverflow(q, ts, Answers(q, Absent, ts), k, n)
  {
    var f := Answers(q, Absent, ts);
    LevelIsFill(q, ts, n);
    assert !WouldOverflow(q, ts, f, n, n);
    if 0 < n {
      var heaviest := FillIsHeaviestWindow(q, ts, f, n);
      forall k | 0 <= k < n
        ensures WouldOverflow(q, ts, f, k, n) ==> !f[n]
      {
        OverflowStep(q, ts, f, k, n);
      }
      OverflowStep(q, ts, f, heaviest, n);
    }
  }

  lemma LeakIsNonNegative(q: Limits, elapsed: int)
    requires q.Valid() && 0 <= elapsed
    ensures 0 <= elapsed * q.leak
  {
  }

  lemma {:induction false} FillStaysWithinCapacity(q: Limits, ts: seq<int>, n: nat)
    requires q.Valid() && NonDecreasing(ts) && n <= |ts|
    ensures 0 <= Fill(q, ts, Answers(q, Absent, ts), n) <= 1000 * q.capacity
  {
    if n == 0 {
    } else {
      var f := Answers(q, Absent, ts);
      FillStaysWithinCapacity(q, ts, n - 1);
      LevelIsFill(q, ts, n - 1);
      assert f[n - 1] ==> Residue(q, ts, f, n - 1) + 1000 <= 1000 * q.capacity;
      if 1 < n {
        LeakIsNonNegative(q, ts[n - 1] - ts[n - 2]);
        assert Residue(q, ts, f, n - 1) <= Fill(q, ts, f, n - 1);
      }
    }
  }

  /** The limiter keeps every window of every trace within capacity + leak * window. */
  lemma AnswersComply(q: Limits, ts: seq<int>)
    requires q.Valid() && NonDecreasing(ts)
    ensures Complies(q, ts, Answers(q, Absent, ts))
  {
    var f := Answers(q, Absent, ts);
    forall k, n | 0 <= k < n <= |ts|
      ensures Excess(q, ts, f, k, n) <= 1000 * q.capacity
    {
      var heaviest := FillIsHeaviestWindow(q, ts, f, n);
      FillStaysWithinCapacity(q, ts, n);
    }
  }

  lemma {:induction false} GreedyLead(q: Limits, ts: seq<int>, f: seq<bool>, n: nat)
    requires q.Valid() && NonDecreasing(ts) && Complies(q, ts, f) && n <= |ts|
    ensures var g := Answers(q, Absent, ts);
            var lead := Tally(g, 0, n) - Tally(f, 0, n);
            0 <= lead && Fill(q, ts, g, n) - Fill(q, ts, f, n) <= 1000 * lead
  {
    if n == 0 {
    } else {
      GreedyLead(q, ts, f, n - 1);
      LevelIsFill(q, ts, n - 1);
      var heaviest := FillIsHeaviestWindow(q, ts, f, n);
      assert Fill(q, ts, f, n) <= 1000 * q.capacity;
    }
  }

  /**
    The limiter is the most permissive one: on every prefix of every trace it has admitted at least as
    many requests as any other policy, even a clairvoyant one, that respects the same window bound.
   */
  lemma NoCompliantPolicyAdmitsMore(q: Limits, ts: seq<int>, f: seq<bool>, n: nat)
    requires q.Valid() && NonDecreasing(ts) && Complies(q, ts, f) && n <= |ts|
    ensures Tally(f, 0, n) <= Tally(Answers(q, Absent, ts), 0, n)
  {
    GreedyLead(q, ts, f, n);
  }

  // ------------------------------------------------------- arbitrary clocks

  /** Never falls from one request to the next, whatever the clock does. */
  function Potential(q: Limits, b: Bucket): int
    requires b.Stored?
  {
    b.level + q.leak * b.last
  }

  lemma PotentialStep(q: Limits, b: Bucket, now: int)
    requires b.Stored?
    ensures Potential(q, b) + (if Admits(q, b, now) then 1000 else 0) <= Potential(q, Next(q, b, now))
  {
    assert q.leak * now == q.leak * b.last + (now - b.last) * q.leak;
  }

  lemma {:induction false} PotentialGrows(q: Limits, b: Bucket, ts: seq<int>, n: nat)
    requires q.Valid() && b.Stored? && n <= |ts|
    ensures After(q, b, ts, n).Stored?
    ensures Potential(q, b) + 1000 * Tally(Answers(q, b, ts), 0, n) <= Potential(q, After(q, b, ts, n))
  {
    if n == 0 {
    } else {
      PotentialGrows(q, b, ts, n - 1);
      PotentialStep(q, After(q, b, ts, n - 1), ts[n - 1]);
    }
  }

  lemma AdmittedLevel(q: Limits, b: Bucket, ts: seq<int>, n: nat)
    requires 0 < n <= |ts| && Answers(q, b, ts)[n - 1]
    ensures var after := After(q, b, ts, n);
            after.Stored? && after.level <= 1000 * q.capacity && after.last == ts[n - 1]
  {
  }

  lemma PotentialGap(leak: int, level: int, last: int, level': int, last': int, admitted: int)
    requires level + leak * last + admitted <= level' + leak * last'
    ensures admitted <= level' - level + leak * (last' - last)
  {
  }

  lemma AdmissionsFromStored(q: Limits, b: Bucket, ts: seq<int>, n: nat)
    requires q.Valid() && b.Stored? && 0 < n <= |ts|
    requires Answers(q, b, ts)[n - 1]
    ensures 1000 * Tally(Answers(q, b, ts), 0, n)
         <= 1000 * q.capacity - b.level + q.leak * (ts[n - 1] - b.last)
  {
    PotentialGrows(q, b, ts, n);
    AdmittedLevel(q, b, ts, n);
    var after := After(q, b, ts, n);
    PotentialGap(q.leak, b.level, b.last, after.level, after.last, 1000 * Tally(Answers(q, b, ts), 0, n));
  }

  /** What request 0 finds: a missing key is as good as an empty bucket written just now. */
  function Found(b: Bucket, ts: seq<int>): Bucket
    requires 0 < |ts|
  {
    if b.Absent? then Stored(0, ts[0]) else b
  }

  lemma {:induction false} FoundIsAsGood(q: Limits, b: Bucket, ts: seq<int>, n: nat)
    requires q.Valid() && 0 < |ts| && n <= |ts|
    ensures 0 < n ==> After(q, b, ts, n) == After(q, Found(b, ts), ts, n)
    ensures Tally(Answers(q, b, ts), 0, n) == Tally(Answers(q, Found(b, ts), ts), 0, n)
    ensures 0 < n ==> Answers(q, b, ts)[n - 1] == Answers(q, Found(b, ts), ts)[n - 1]
  {
    if n == 0 {
    } else {
      FoundIsAsGood(q, b, ts, n - 1);
      assert (ts[0] - ts[0]) * q.leak == 0;
    }
  }

  /**
    For timestamps in any order, even running backwards, and a missing key or any stored bucket to begin with: a run
    of requests that ends with an admitted one admits at most capacity - start level + leak * (end - start), in
    thousandths, where a missing key stands for an empty bucket at the first request.
   */
  lemma AdmissionsBoundedUnderAnyClock(q: Limits, b: Bucket, ts: seq<int>, n: nat)
    requires q.Valid() && 0 < n <= |ts|
    requires Answers(q, b, ts)[n - 1]
    ensures 1000 * Tally(Answers(q, b, ts), 0, n) <=
            match b
            case Absent => 1000 * q.capacity + q.leak * (ts[n - 1] - ts[0])
            case Stored(level, last) => 1000 * q.capacity - level + q.leak * (ts[n - 1] - last)
  {
    FoundIsAsGood(q, b, ts, n);
    AdmissionsFromStored(q, Found(b, ts), ts, n);
  }

  /** Only a clock that runs backwards can leave more than the capacity in the bucket, and only on a rejection. */
  lemma LevelAboveCapacity(q: Limits, b: Bucket, now: int)
    requires q.Valid() && b.Stored? && b.level <= 1000 * q.capacity
    ensures 1000 * q.capacity < Next(q, b, now).level <==> 1000 * q.capacity < b.level + q.leak * (b.last - now)
    ensures 1000 * q.capacity < Next(q, b, now).level ==> now < b.last && !Admits(q, b, now)
  {
    assert q.leak * (b.last - now) == -((now - b.last) * q.leak);
    if b.last <= now {
      assert 0 <= (now - b.last) * q.leak;
    }
  }

  // ------------------------------------------------------------------- TTL

  /** Seconds given to EXPIRE: ceil(capacity / leak_rate) + 1. */
  function TtlSeconds(q: Limits): int
    requires q.Valid()
  {
    (q.capacity + q.leak - 1) / q.leak + 1
  }

  /** The trace again, where `lost[i]` says that the key had expired when request `i` arrived. */
  function AfterLosses(q: Limits, ts: seq<int>, lost: seq<bool>, n: nat): Bucket
    requires n <= |ts| == |lost|
    decreases n, 0
  {
    if n == 0 then Absent
    else Next(q, Seen(q, ts, lost, n - 1), ts[n - 1])
  }

  /** What request `n` finds under the key. */
  function Seen(q: Limits, ts: seq<int>, lost: seq<bool>, n: nat): Bucket
    requires n < |ts| == |lost|
    decreases n, 1
  {
    if lost[n] then Absent else AfterLosses(q, ts, lost, n)
  }

  /** The key expires no earlier than one second before its TTL has run out. */
  predicate LossesRespectTtl(q: Limits, ts: seq<int>, lost: seq<bool>)
    requires q.Valid()
  {
    |lost| == |ts| &&
    forall i :: 0 < i < |ts| && lost[i] ==> 1000 * (TtlSeconds(q) - 1) <= ts[i] - ts[i - 1]
  }

  lemma TtlDrainsFullBucket(q: Limits, elapsed: int)
    requires q.Valid() && 1000 * (TtlSeconds(q) - 1) <= elapsed
    ensures 1000 * q.capacity <= elapsed * q.leak
  {
    var seconds := (q.capacity + q.leak - 1) / q.leak;
    assert q.capacity <= seconds * q.leak by {
      assert q.capacity + q.leak - 1 == seconds * q.leak + (q.capacity + q.leak - 1) % q.leak;
    }
    assert 1000 * (seconds * q.leak) == (1000 * seconds) * q.leak <= elapsed * q.leak;
  }

  /** The TTL less one second is the least whole number of seconds that drains a full bucket. */
  lemma TtlIsLeast(q: Limits, seconds: int)
    requires q.Valid()
    ensures q.capacity <= seconds * q.leak <==> TtlSeconds(q) - 1 <= seconds
  {
    var least := (q.capacity + q.leak - 1) / q.leak;
    var rest := (q.capacity + q.leak - 1) % q.leak;
    assert q.capacity + q.leak - 1 == least * q.leak + rest;
    if least <= seconds {
      assert least * q.leak <= seconds * q.leak;
    } else {
      assert seconds * q.leak <= (least - 1) * q.leak == least * q.leak - q.leak;
    }
  }

  /** Expiry is invisible: the bucket with a TTL gives the answers of one that never expires. */
  lemma {:induction false} TtlIsInvisible(q: Limits, ts: seq<int>, lost: seq<bool>, n: nat)
    requires q.Valid() && NonDecreasing(ts) && LossesRespectTtl(q, ts, lost) && n <= |ts|
    ensures AfterLosses(q, ts, lost, n) == After(q, Absent, ts, n)
    ensures n < |ts| ==> Admits(q, Seen(q, ts, lost, n), ts[n]) == Answers(q, Absent, ts)[n]
  {
    if n == 0 {
    } else {
      TtlIsInvisible(q, ts, lost, n - 1);
      LevelIsFill(q, ts, n - 1);
      if 1 < n && lost[n - 1] {
        TtlDrainsFullBucket(q, ts[n - 1] - ts[n - 2]);
        FillStaysWithinCapacity(q, ts, n - 1);
      }
    }
    if n < |ts| {
      LevelIsFill(q, ts, n);
      if 0 < n && lost[n] {
        TtlDrainsFullBucket(q, ts[n] - ts[n - 1]);
        FillStaysWithinCapacity(q, ts, n);
      }
    }
  }

  /**
    One millisecond less would show: with the key lost 999 ms after a one-request bucket was filled, an answer
    changes.
   */
  lemma TtlMarginIsTight()
    ensures var q := Limits(1, 1); var ts := [0, 999]; var lost := [false, true];
            && TtlSeconds(q) == 2
            && ts[1] - ts[0] == 1000 * (TtlSeconds(q) - 1) - 1
            && Admits(q, Seen(q, ts, lost, 1), ts[1]) != Answers(q, Absent, ts)[1]
  {
    var q := Limits(1, 1);
    assert After(q, Absent, [0, 999], 0) == Absent;
    assert After(q, Absent, [0, 999], 1) == Stored(1000, 0);
  }

  /**
    The configured limiter (capacity 100, 50 requests per second): among the requests `k .. n` of any trace, retries
    and rejections included, m successes take at least (m - 100) / 50 seconds.
   */
  lemma CompletionTimeLowerBound(ts: seq<int>, k: nat, n: nat)
    requires NonDecreasing(ts) && k < n <= |ts|
    ensures 1000 * (Tally(Answers(Limits(100, 50), Absent, ts), k, n) - 100) <= 50 * (ts[n - 1] - ts[k])
  {
    var q := Limits(100, 50);
    AnswersComply(q, ts);
    assert Excess(q, ts, Answers(q, Absent, ts), k, n) <= 1000 * q.capacity;
  }
}
