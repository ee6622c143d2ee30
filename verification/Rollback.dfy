/**
  When the rollback of src/product/product.controller.ts:87-89 restores consistency.  It rests on two beliefs: that a
  failed emit was not delivered, and that the counter still lacks the item it puts back.  Each fails in some run; the
  conditions below are exact.
 */
module Rollback {
  import opened Common
  import opened Inventory

  /** The emit of this call has thrown. */
  predicate EmitFailed(c: Client) {
    c.Undoing? || (c.Done? && c.outcome.DeliveryFailed?)
  }

  /** The call's decrement has succeeded. */
  predicate TookItem(c: Client) {
    InFlight(c) || (c.Done? && !c.outcome.OutOfStock?)
  }

  /** Some event in the topic is of a call whose emit has thrown. */
  predicate Phantom(clients: seq<Client>, sellers: seq<nat>) {
    exists k :: 0 <= k < |sellers| && sellers[k] < |clients| && EmitFailed(clients[sellers[k]])
  }

  ghost predicate SellersMatch(clients: seq<Client>, sellers: seq<nat>, phantoms: nat) {
    && (forall k :: 0 <= k < |sellers| ==> sellers[k] < |clients|)
    && (0 < phantoms <==> Phantom(clients, sellers))
    && (forall i :: 0 <= i < |clients| && clients[i].Done? && clients[i].outcome.Success? ==> i in sellers)
  }

  ghost predicate PhantomInv(s: State) {
    SalesInv(s) && SellersMatch(s.clients, s.sellers, s.phantoms)
  }

  /** Call `i` moves without emitting. */
  lemma MoveKeepsSellers(clients: seq<Client>, sellers: seq<nat>, phantoms: nat, i: nat, c: Client)
    requires SellersMatch(clients, sellers, phantoms) && i < |clients|
    requires i in sellers ==> EmitFailed(c) == EmitFailed(clients[i])
    requires c.Done? ==> !c.outcome.Success?
    ensures SellersMatch(clients[i := c], sellers, phantoms)
  {
    if Phantom(clients, sellers) {
      var k :| 0 <= k < |sellers| && sellers[k] < |clients| && EmitFailed(clients[sellers[k]]);
      assert EmitFailed(clients[i := c][sellers[k]]);
    }
    if Phantom(clients[i := c], sellers) {
      var k :| 0 <= k < |sellers| && sellers[k] < |clients| && EmitFailed(clients[i := c][sellers[k]]);
      assert EmitFailed(clients[sellers[k]]);
    }
  }

  /** Call `i` is behind one more event. */
  lemma SaleKeepsSellers(clients: seq<Client>, sellers: seq<nat>, phantoms: nat, i: nat, c: Client)
    requires SellersMatch(clients, sellers, phantoms) && i < |clients| && i !in sellers
    ensures SellersMatch(clients[i := c], sellers + [i], phantoms + if EmitFailed(c) then 1 else 0)
  {
    var (clients', sellers') := (clients[i := c], sellers + [i]);
    assert sellers'[|sellers|] == i;
    if Phantom(clients, sellers) {
      var k :| 0 <= k < |sellers| && sellers[k] < |clients| && EmitFailed(clients[sellers[k]]);
      assert sellers'[k] == sellers[k] && sellers[k] in sellers;
    }
    if Phantom(clients', sellers') && !EmitFailed(c) {
      var k :| 0 <= k < |sellers'| && sellers'[k] < |clients'| && EmitFailed(clients'[sellers'[k]]);
      assert EmitFailed(clients[sellers[k]]);
    }
  }

  lemma StartKeepsSellers(clients: seq<Client>, sellers: seq<nat>, phantoms: nat)
    requires SellersMatch(clients, sellers, phantoms)
    ensures SellersMatch(clients + [Acquiring(1)], sellers, phantoms)
  {
    if Phantom(clients, sellers) {
      var k :| 0 <= k < |sellers| && sellers[k] < |clients| && EmitFailed(clients[sellers[k]]);
      assert EmitFailed((clients + [Acquiring(1)])[sellers[k]]);
    }
  }

  /** A call that has yet to emit is behind no event. */
  lemma NotYetSold(s: State, i: nat)
    requires SalesInv(s) && i < |s.clients| && !Emitted(s.clients[i])
    ensures i !in s.sellers
  {
  }

  lemma EmitKeepsSellers(s: State, i: nat, result: EmitResult, id: string)
    requires PhantomInv(s) && i < |s.clients| && s.clients[i].Emitting?
    ensures var t := DoEmit(s, i, result, id); SellersMatch(t.clients, t.sellers, t.phantoms)
  {
    var c := DoEmit(s, i, result, id).clients[i];
    NotYetSold(s, i);
    if result.Lost? {
      MoveKeepsSellers(s.clients, s.sellers, s.phantoms, i, c);
    } else {
      SaleKeepsSellers(s.clients, s.sellers, s.phantoms, i, c);
    }
  }

  lemma StepKeepsPhantoms(s: State, l: Label)
    requires CallInv(s) && PhantomInv(s)
    ensures PhantomInv(Do(s, l))
  {
    StepKeepsSales(s, l);
    if Enabled(s, l) {
      var (clients, sellers, phantoms) := (s.clients, s.sellers, s.phantoms);
      match l
      case Start => StartKeepsSellers(clients, sellers, phantoms);
      case Acquire(i) => MoveKeepsSellers(clients, sellers, phantoms, i, DoAcquire(s, i).clients[i]);
      case Eval(i) => MoveKeepsSellers(clients, sellers, phantoms, i, DoEval(s, i).clients[i]);
      case Release(i) => MoveKeepsSellers(clients, sellers, phantoms, i, DoRelease(s, i).clients[i]);
      case Emit(i, result, id) => EmitKeepsSellers(s, i, result, id);
      case Rollback(i) => MoveKeepsSellers(clients, sellers, phantoms, i, DoRollback(s, i).clients[i]);
      case ResetStock =>
      case Pass(_) =>
      case Expire =>
    }
  }

  lemma {:induction false} RunKeepsPhantoms(labels: seq<Label>)
    ensures PhantomInv(Exec(INIT, labels))
  {
    if labels == [] {
    } else {
      RunKeepsCallInv(labels[..|labels| - 1]);
      RunKeepsPhantoms(labels[..|labels| - 1]);
      StepKeepsPhantoms(Exec(INIT, labels[..|labels| - 1]), labels[|labels| - 1]);
    }
  }

  /**
    In every run, stock, items in flight and delivered events add up to 1000 plus what resets added if and only if no
    delivered event is of a call whose emit has thrown.
   */
  lemma TopicConsistentIff(labels: seq<Label>)
    ensures var s := Exec(INIT, labels);
            Stock(s) + Count(s.clients, InFlight) + |s.log| == INITIAL_STOCK + s.restocked <==>
            !Phantom(s.clients, s.sellers)
  {
    RunConserves(labels);
    RunKeepsPhantoms(labels);
  }

  // ------------------------------------------------------ item by item

  /** The call has put its item back. */
  predicate PutItemBack(ops: seq<Op>, i: nat, at: nat) {
    exists j :: at < j < |ops| && ops[j] == Return(i, at)
  }

  /** In how many places the item of call `i` is counted: in flight, in the topic, and again in the stock. */
  function TimesCounted(s: State, i: nat): nat
    requires i < |s.clients| && TookItem(s.clients[i])
  {
    (if InFlight(s.clients[i]) then 1 else 0) + (if i in s.sellers then 1 else 0)
    + (if PutItemBack(s.ops, i, s.clients[i].at) then 1 else 0)
  }

  lemma PutBackIff(s: State, i: nat)
    requires CallInv(s) && i < |s.clients| && TookItem(s.clients[i])
    ensures PutItemBack(s.ops, i, s.clients[i].at) <==> s.clients[i] == Done(DeliveryFailed, s.clients[i].at)
  {
    var c := s.clients[i];
    assert OwnsTake(s.ops, i, c) && Undone(s.ops, i, c);
    if PutItemBack(s.ops, i, c.at) {
      var j :| c.at < j < |s.ops| && s.ops[j] == Return(i, c.at);
      assert OwnedBy(s.clients, j, s.ops[j]);
    }
  }

  /**
    Every item taken is counted exactly once, in every run and at every moment, unless the emit of its call was
    delivered and yet threw: then it is counted twice from that moment on, and the rollback changes nothing about it.
   */
  lemma ItemCountedOnceIff(labels: seq<Label>, i: nat)
    requires i < |Exec(INIT, labels).clients| && TookItem(Exec(INIT, labels).clients[i])
    ensures var s := Exec(INIT, labels);
            TimesCounted(s, i) == if i in s.sellers && EmitFailed(s.clients[i]) then 2 else 1
  {
    RunKeepsCallInv(labels);
    RunKeepsPhantoms(labels);
    var s := Exec(INIT, labels);
    PutBackIff(s, i);
    if !Emitted(s.clients[i]) {
      NotYetSold(s, i);
    }
  }

  // ------------------------------------------------------------- resets

  /** Everything returned since the last reset had been taken since. */
  predicate ReturnsAreFresh(ops: seq<Op>) {
    forall j :: Since(ops) <= j < |ops| && ops[j].Return? ==> Since(ops) <= ops[j].at
  }

  lemma {:induction false} FreshIffNotStale(ops: seq<Op>)
    ensures ReturnsAreFresh(ops) <==> Stale(ops) == 0
  {
    if ops == [] || ops[|ops| - 1].Reset? {
    } else {
      var before := ops[..|ops| - 1];
      FreshIffNotStale(before);
      assert Since(ops) == Since(before);
      assert forall j :: 0 <= j < |before| ==> before[j] == ops[j];
    }
  }

  /**
    In every run, the stock is 1000 less the items kept since the last reset if and only if no call has since put
    back an item that it took before.
   */
  lemma StockConsistentIff(labels: seq<Label>)
    ensures var s := Exec(INIT, labels);
            Stock(s) == INITIAL_STOCK - Count(s.clients, Kept(Since(s.ops))) <==> ReturnsAreFresh(s.ops)
  {
    StockLedger(labels);
    FreshIffNotStale(Exec(INIT, labels).ops);
  }

  lemma ReturnAddsStale(ops: seq<Op>, i: nat, at: nat)
    ensures Stale(ops + [Return(i, at)]) == Stale(ops) + if Since(ops) <= at then 0 else 1
  {
    assert (ops + [Return(i, at)])[..|ops|] == ops;
  }

  /**
    A rollback puts its item back where it is missing if and only if the item was taken since the last reset: then the
    stock and the items kept add up to what they did before, otherwise to one more.
   */
  lemma RollbackConsistentIff(labels: seq<Label>, i: nat)
    requires i < |Exec(INIT, labels).clients| && Exec(INIT, labels).clients[i].Undoing?
    ensures var s := Exec(INIT, labels);
            var t := Do(s, Rollback(i));
            Stock(t) + Count(t.clients, Kept(Since(t.ops))) ==
            Stock(s) + Count(s.clients, Kept(Since(s.ops))) + if Since(s.ops) <= s.clients[i].at then 0 else 1
  {
    var s := Exec(INIT, labels);
    StockLedger(labels);
    ReturnAddsStale(s.ops, i, s.clients[i].at);
    StockLedger(labels + [Rollback(i)]);
    ExecStep(INIT, labels, Rollback(i));
  }
}
