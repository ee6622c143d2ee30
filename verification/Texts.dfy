/**
  What the messages of `useItem` say (src/product/product.controller.ts:78-92), by reading them: an independent
  reader of decimal numerals, and the laws that every event and reply obeys.
 */
module Texts {
  import opened Common
  import opened Inventory

  function DigitValue(c: char): nat
    requires '0' <= c <= '9'
  {
    c as int - '0' as int
  }

  predicate AllDigits(d: string) {
    forall k :: 0 <= k < |d| ==> '0' <= d[k] <= '9'
  }

  /** Digits only, at least one, and no zero in front of others. */
  predicate IsNumeral(d: string) {
    AllDigits(d) && 0 < |d| && (d[0] == '0' ==> |d| == 1)
  }

  /** Reading from left to right, with `read` for what came before. */
  function ReadOn(d: string, read: nat): nat
    requires AllDigits(d)
  {
    if d == [] then read else ReadOn(d[1..], 10 * read + DigitValue(d[0]))
  }

  /** The text announces that this many items are left. */
  ghost predicate Tells(text: string, remaining: int) {
    if remaining == 0 then text == "Last item used!"
    else exists d :: IsNumeral(d) && ReadOn(d, 0) == remaining && text == "Item used. " + d + " left."
  }

  lemma {:induction false} ReadOneMore(d: string, c: char, read: nat)
    requires AllDigits(d) && '0' <= c <= '9'
    ensures AllDigits(d + [c]) && ReadOn(d + [c], read) == 10 * ReadOn(d, read) + DigitValue(c)
  {
    if d == [] {
      assert [] + [c] == [c] && [c][1..] == [];
    } else {
      assert (d + [c])[1..] == d[1..] + [c];
      ReadOneMore(d[1..], c, 10 * read + DigitValue(d[0]));
    }
  }

  lemma {:induction false} DecimalReads(n: nat)
    ensures IsNumeral(Decimal(n)) && ReadOn(Decimal(n), 0) == n && (Decimal(n)[0] == '0' ==> n == 0)
  {
    var digits := "0123456789";
    assert forall k :: 0 <= k < 10 ==> '0' <= digits[k] <= '9' && DigitValue(digits[k]) == k;
    if n < 10 {
      assert [digits[n]][1..] == [];
    } else {
      DecimalReads(n / 10);
      ReadOneMore(Decimal(n / 10), digits[n % 10], 0);
    }
  }

  lemma MessageTells(remaining: nat)
    ensures Tells(Message(remaining), remaining)
  {
    if remaining != 0 {
      DecimalReads(remaining);
    }
  }

  /** A text tells one number only. */
  lemma TellsOnce(text: string, a: int, b: int)
    requires Tells(text, a) && Tells(text, b)
    ensures a == b
  {
    if a != 0 && b != 0 {
      var d :| IsNumeral(d) && ReadOn(d, 0) == a && text == "Item used. " + d + " left.";
      var e :| IsNumeral(e) && ReadOn(e, 0) == b && text == "Item used. " + e + " left.";
      assert |d| == |e|;
      assert text[11..11 + |d|] == d && text[11..11 + |e|] == e;
    }
  }

  // ---------------------------------------------------------------- events

  /** The label by which event `k` was emitted. */
  predicate EmittedBy(l: Label, seller: nat, event: Event) {
    l.Emit? && l.client == seller && !l.result.Lost? && event.correlationId == Some(l.correlationId)
  }

  ghost predicate Sent(labels: seq<Label>, seller: nat, event: Event) {
    exists j :: 0 <= j < |labels| && EmittedBy(labels[j], seller, event)
  }

  ghost predicate SentInv(s: State, labels: seq<Label>) {
    |s.sellers| == |s.log| && forall k :: 0 <= k < |s.log| ==> Sent(labels, s.sellers[k], s.log[k])
  }

  /** Only an emit that is not lost adds an event, its own. */
  lemma StepEmits(s: State, l: Label)
    ensures var t := Do(s, l);
            || (t.log == s.log && t.sellers == s.sellers)
            || (|t.log| == |s.log| + 1 && t.log[..|s.log|] == s.log && l.Emit? && t.sellers == s.sellers + [l.client]
                && EmittedBy(l, l.client, t.log[|s.log|]))
  {
  }

  lemma StepKeepsSent(s: State, labels: seq<Label>, l: Label)
    requires SentInv(s, labels)
    ensures SentInv(Do(s, l), labels + [l])
  {
    StepEmits(s, l);
    var t := Do(s, l);
    forall k | 0 <= k < |t.log|
      ensures Sent(labels + [l], t.sellers[k], t.log[k])
    {
      if k < |s.log| {
        var j :| 0 <= j < |labels| && EmittedBy(labels[j], s.sellers[k], s.log[k]);
        assert t.log[k] == t.log[..|s.log|][k] == s.log[k] && t.sellers[k] == s.sellers[k];
        assert EmittedBy((labels + [l])[j], t.sellers[k], t.log[k]);
      } else {
        assert EmittedBy((labels + [l])[|labels|], t.sellers[k], t.log[k]);
      }
    }
  }

  lemma {:induction false} RunKeepsSent(labels: seq<Label>)
    ensures SentInv(Exec(INIT, labels), labels)
  {
    if labels == [] {
    } else {
      var init := labels[..|labels| - 1];
      RunKeepsSent(init);
      StepKeepsSent(Exec(INIT, init), init, labels[|labels| - 1]);
      assert init + [labels[|labels| - 1]] == labels;
    }
  }

  /**
    In every run each delivered event tells how many items its own call left, and carries the correlation id with
    which that call emitted it.
   */
  lemma EventsTellWhatIsLeft(labels: seq<Label>, k: nat)
    requires k < |Exec(INIT, labels).log|
    ensures var s := Exec(INIT, labels);
            && k < |s.sellers| && s.log[k].success
            && 0 <= s.log[k].remaining && Tells(s.log[k].message, s.log[k].remaining)
            && Take(s.sellers[k], s.log[k].remaining) in s.ops
            && Sent(labels, s.sellers[k], s.log[k])
  {
    EventsReportDistinctTakes(labels);
    RunKeepsSales(labels);
    RunKeepsSent(labels);
    var s := Exec(INIT, labels);
    assert Reports(s.log[k], s.ops, s.clients[s.sellers[k]]);
    MessageTells(s.log[k].remaining);
  }
}
