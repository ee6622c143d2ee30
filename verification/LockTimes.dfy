/**
  The lock of `useItem` in numbers (src/product/product.controller.ts:20-24, 47-62): five tries, back-offs of 50, 100,
  200, 400 and 800 ms, and 300 ms to live.
 */
module LockTimes {
  import opened Common
  import opened Inventory
  import opened ProductController
  import R = RedisService

  /** In every run: a call turned away has tried exactly five times, and one refused less often goes on. */
  lemma FiveTries(labels: seq<Label>, i: nat)
    requires i < |Exec(INIT, labels).clients|
    ensures var c := Exec(INIT, labels).clients[i];
            && (c.Contended? ==> Tries(labels, i) == 5)
            && (c.Acquiring? ==> Tries(labels, i) <= 4)
            && (!c.Contended? && !c.Acquiring? ==> 1 <= Tries(labels, i) <= 5)
  {
    ContendedAfterFiveTries(labels, i);
  }

  /** In every run: the next try of a waiting call gets a free lock; a held one sends it away at the fifth only. */
  lemma NextTry(labels: seq<Label>, i: nat)
    requires i < |Exec(INIT, labels).clients| && Exec(INIT, labels).clients[i].Acquiring?
    ensures var s := Exec(INIT, labels);
            var c := Do(s, Acquire(i)).clients[i];
            && (c.Holding? <==> s.lock.Free?)
            && (c.Contended? <==> s.lock.Held? && Tries(labels, i) == 4)
            && (c.Acquiring? <==> s.lock.Held? && Tries(labels, i) < 4)
  {
    ContendedAfterFiveTries(labels, i);
  }

  /** What the back-offs last at least. */
  lemma BackoffsLast(backoffs: seq<seq<Label>>, i: nat)
    ensures Delay(1) == 50 && Delay(2) == 100 && Delay(3) == 200 && Delay(4) == 400 && Delay(5) == 800
    ensures ValidBackoffs(backoffs, i) <==>
            && |backoffs| == 5 && (forall n :: 0 <= n < 5 ==> Elsewhere(backoffs[n], i))
            && 50 <= Elapsed(backoffs[0]) && 100 <= Elapsed(backoffs[1]) && 200 <= Elapsed(backoffs[2])
            && 400 <= Elapsed(backoffs[3]) && 800 <= Elapsed(backoffs[4])
  {
    assert Power2(1) == 2 && Power2(3) == 8 && Power2(4) == 16;
    var d := [50, 100, 200, 400, 800];
    assert forall n :: 0 <= n < 5 ==> Delay(n + 1) == d[n];
  }

  /** A lock taken at some moment is there for 300 ms and, with the next look at it, gone. */
  lemma LockLasts(s: State, i: nat, ms: nat)
    requires Enabled(s, Acquire(i)) && s.lock.Free?
    ensures var t := Do(Do(Do(s, Acquire(i)), Pass(ms)), Expire);
            if ms <= 299 then t.lock == R.Held(s.nextToken, s.now + 300) else t.lock == R.Free
  {
  }

  /** So another call is refused 299 ms later and served 300 ms later. */
  lemma OthersWait(s: State, i: nat, j: nat, ms: nat)
    requires Enabled(s, Acquire(i)) && s.lock.Free? && i != j && j < |s.clients| && s.clients[j].Acquiring?
    ensures var t := Do(Do(Do(s, Acquire(i)), Pass(ms)), Expire);
            j < |t.clients| && (Do(t, Acquire(j)).clients[j].Holding? <==> 300 <= ms)
  {
    LockLasts(s, i, ms);
  }

  // ------------------------------------------------ a fifth try that sells

  /** A holder that crashed at time 0, and a call that begins. */
  function Crashed(): State {
    INIT.(lock := R.Held(0, 300), nextToken := 1, clients := [Holding(0, 0), Acquiring(1)])
  }

  lemma CrashedIsReachable()
    ensures Exec(INIT, [Start] + [Acquire(0)] + [Start]) == Crashed()
  {
    ExecStep(INIT, [], Start);
    assert [] + [Start] == [Start];
    ExecStep(INIT, [Start], Acquire(0));
    ExecStep(INIT, [Start] + [Acquire(0)], Start);
    assert Exec(INIT, [Start]).clients == [Acquiring(1)];
    assert Exec(INIT, [Start] + [Acquire(0)]).clients == [Holding(0, 0)];
  }

  /** During the third back-off a rival takes the lock at 340 ms, and gives it up during the fourth, at 360 ms. */
  function Rivalry(): seq<seq<Label>> {
    [[Pass(50)],
     [Pass(100)],
     [Pass(150)] + [Expire] + [Start] + [Pass(40)] + [Acquire(2)] + [Pass(10)],
     [Pass(10)] + [Eval(2)] + [Release(2)] + [Pass(390)],
     [Pass(800)]]
  }

  lemma {:induction false} ElapsedMore(labels: seq<Label>, l: Label)
    ensures Elapsed(labels + [l]) == Elapsed(labels) + if l.Pass? then l.ms else 0
  {
    assert (labels + [l])[..|labels|] == labels;
  }

  lemma OnePass(ms: nat)
    ensures Elapsed([Pass(ms)]) == ms
  {
    ElapsedMore([], Pass(ms));
    assert [] + [Pass(ms)] == [Pass(ms)];
  }

  lemma RivalryIsElsewhere()
    ensures forall n :: 0 <= n < 5 ==> Elsewhere(Rivalry()[n], 1)
  {
  }

  lemma RivalryIsValid()
    ensures ValidBackoffs(Rivalry(), 1)
  {
    OnePass(50);
    OnePass(100);
    OnePass(800);
    ThirdLasts();
    FourthLasts();
    RivalryIsElsewhere();
    BackoffsLast(Rivalry(), 1);
  }

  lemma ThirdLasts()
    ensures Elapsed(Rivalry()[2]) == 200
  {
    ElapsedMore([], Pass(150));
    assert [] + [Pass(150)] == [Pass(150)];
    ElapsedMore([Pass(150)], Expire);
    ElapsedMore([Pass(150)] + [Expire], Start);
    ElapsedMore([Pass(150)] + [Expire] + [Start], Pass(40));
    ElapsedMore([Pass(150)] + [Expire] + [Start] + [Pass(40)], Acquire(2));
    ElapsedMore([Pass(150)] + [Expire] + [Start] + [Pass(40)] + [Acquire(2)], Pass(10));
  }

  lemma FourthLasts()
    ensures Elapsed(Rivalry()[3]) == 400
  {
    ElapsedMore([], Pass(10));
    assert [] + [Pass(10)] == [Pass(10)];
    ElapsedMore([Pass(10)], Eval(2));
    ElapsedMore([Pass(10)] + [Eval(2)], Release(2));
    ElapsedMore([Pass(10)] + [Eval(2)] + [Release(2)], Pass(390));
  }

  /** The call before its second, third, fourth and fifth tries. */
  function Second(): State {
    Crashed().(now := 50, nextToken := 2, clients := [Holding(0, 0), Acquiring(2)])
  }

  function Third(): State {
    Crashed().(now := 150, nextToken := 3, clients := [Holding(0, 0), Acquiring(3)])
  }

  function Fourth(): State {
    Crashed().(now := 350, lock := R.Held(4, 640), nextToken := 5,
               clients := [Holding(0, 0), Acquiring(4), Holding(4, 340)])
  }

  function Fifth(): State {
    Crashed().(now := 750, lock := R.Free, nextToken := 6, counter := Some(999), ops := [Take(2, 999)],
               clients := [Holding(0, 0), Acquiring(5), Emitting(999, 0)])
  }

  lemma OneLabel(s: State, l: Label)
    ensures Exec(s, [l]) == Do(s, l)
  {
    ExecStep(s, [], l);
    assert [] + [l] == [l];
  }

  lemma FirstTwoTries()
    ensures Attempted(Crashed(), 1, Rivalry()[0]) == Second() && Attempted(Second(), 1, Rivalry()[1]) == Third()
  {
    OneLabel(Do(Crashed(), Acquire(1)), Pass(50));
    assert Do(Crashed(), Acquire(1)).clients == [Holding(0, 0), Acquiring(2)];
    OneLabel(Do(Second(), Acquire(1)), Pass(100));
    assert Do(Second(), Acquire(1)).clients == [Holding(0, 0), Acquiring(3)];
  }

  lemma ThirdTry()
    ensures Attempted(Third(), 1, Rivalry()[2]) == Fourth()
  {
    var s := Do(Third(), Acquire(1));
    assert s.clients == [Holding(0, 0), Acquiring(4)];
    var passed := [Pass(150)];
    OneLabel(s, Pass(150));
    ExecStep(s, passed, Expire);
    ExecStep(s, passed + [Expire], Start);
    var u := Exec(s, passed + [Expire] + [Start]);
    assert u.clients == [Holding(0, 0), Acquiring(4), Acquiring(1)];
    assert u.now == 300 && u.lock.Free? && u.nextToken == 4;
    ExecStep(s, passed + [Expire] + [Start], Pass(40));
    ExecStep(s, passed + [Expire] + [Start] + [Pass(40)], Acquire(2));
    ExecStep(s, passed + [Expire] + [Start] + [Pass(40)] + [Acquire(2)], Pass(10));
    assert Exec(s, Rivalry()[2]).clients == Fourth().clients;
  }

  lemma FourthTry()
    ensures Attempted(Fourth(), 1, Rivalry()[3]) == Fifth()
  {
    var s := Do(Fourth(), Acquire(1));
    assert s.clients == [Holding(0, 0), Acquiring(5), Holding(4, 340)];
    OneLabel(s, Pass(10));
    ExecStep(s, [Pass(10)], Eval(2));
    var u := Exec(s, [Pass(10)] + [Eval(2)]);
    assert u.clients == [Holding(0, 0), Acquiring(5), Leaving(4, 340, 999, 0)];
    ExecStep(s, [Pass(10)] + [Eval(2)], Release(2));
    ExecStep(s, [Pass(10)] + [Eval(2)] + [Release(2)], Pass(390));
    assert Exec(s, Rivalry()[3]).clients == Fifth().clients;
  }

  function Alongside(): Script {
    Script(Rivalry(), [], [], [], [])
  }

  lemma FourTries()
    ensures Tried(Crashed(), 1, Rivalry(), 4) == Fifth()
  {
    FirstTwoTries();
    ThirdTry();
    FourthTry();
    var b := Rivalry();
    assert Tried(Crashed(), 1, b, 1) == Second();
    assert Tried(Crashed(), 1, b, 2) == Third();
    assert Tried(Crashed(), 1, b, 3) == Fourth();
  }

  lemma FifthTry()
    ensures var t := Tried(Crashed(), 1, Rivalry(), 5);
            && t.clients == [Holding(0, 0), Holding(6, 750), Emitting(999, 0)] && t.lock == R.Held(6, 1050)
            && t.counter == Some(999) && t.ops == [Take(2, 999)] && t.log == []
  {
    FourTries();
    var fifth := Do(Fifth(), Acquire(1));
    assert fifth.clients == [Holding(0, 0), Holding(6, 750), Emitting(999, 0)];
    assert HasLock(fifth, 1) && !HasLock(Fifth(), 1);
  }

  /**
    Four refusals are not the end: beside a crashed holder and a rival the call waits 50, 100, 200 and 400 ms, takes
    the lock on its fifth try at 750 ms, and sells the item the rival left as the next.
   */
  lemma FifthTrySells(correlationId: string)
    ensures ValidScript(Alongside(), 1)
    ensures var t := Called(Crashed(), 1, Alongside(), Delivered, correlationId);
            && 1 < |t.clients| && t.clients[1] == Done(Success(998), 1)
            && t.log == [Event(998, true, "Item used. 998 left.", Some(correlationId))]
  {
    RivalryIsValid();
    FifthTry();
    Sells(Tried(Crashed(), 1, Rivalry(), 5), correlationId);
  }

  lemma TextOf998()
    ensures Message(998) == "Item used. 998 left."
  {
    assert Decimal(9) == "9";
    assert Decimal(99) == "9" + "9";
    assert Decimal(998) == "99" + "8";
    assert "Item used. " + "998" + " left." == "Item used. 998 left.";
  }

  /** Nothing happens elsewhere once the lock is had. */
  function Undisturbed(): Script {
    Script([], [], [], [], [])
  }

  lemma Sells(s: State, correlationId: string)
    requires HasLock(s, 1) && s.lock == R.Held(s.clients[1].token, s.clients[1].since + LOCK_TTL_MS)
    requires s.counter == Some(999) && |s.ops| == 1 && s.log == []
    ensures var t := Completed(s, 1, Alongside(), Delivered, correlationId);
            && 1 < |t.clients| && t.clients[1] == Done(Success(998), 1)
            && t.log == [Event(998, true, "Item used. 998 left.", Some(correlationId))]
  {
    assert Reserved(s, 1, Alongside()) == Reserved(s, 1, Undisturbed());
    ReservesAlone(s, 1, Undisturbed());
    var r := Reserved(s, 1, Undisturbed());
    assert Announced(r, 1, Alongside(), Delivered, correlationId) ==
           Announced(r, 1, Undisturbed(), Delivered, correlationId);
    AnnouncesAlone(r, 1, Undisturbed(), Delivered, correlationId);
    TextOf998();
  }
}
