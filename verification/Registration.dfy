/**
  Concurrent registrations over one filter (src/auth/auth.controller.ts:49-68 with
  src/auth/bloom-filter.service.ts:67-79): every probe read and every bit write is a step of its own, and so are the
  two requests of src/auth/services/keycloak-identity.service.ts:93-98, which create the account and assign its role.

  A run is any sequence of labels; a label that is not enabled changes nothing.  The identity provider is
  arbitrary: it holds any accounts to begin with, may gain others in other ways at any moment, and may accept or
  refuse any request; a registration may throw at any point after its account was created.
 */
module Registration {
  import opened BloomHash
  import opened BloomFilter
  import opened HashReference

  /** `earlier` are the calls whose registration had already returned when this call began. */
  datatype Call =
    | Reading(user: Username, earlier: set<nat>, read: set<nat>, sawZero: bool)
    | Creating(user: Username, earlier: set<nat>)
    | Assigning(user: Username, earlier: set<nat>)                            // account created, role not yet assigned
    | Adding(user: Username, earlier: set<nat>, written: set<nat>)
    | Broken(user: Username, earlier: set<nat>, written: set<nat>, sent: bool)  // threw; `sent`: its SETBITs were sent
    | Finished(user: Username, earlier: set<nat>, outcome: Outcome)

  datatype State = State(
    bits: set<nat>,
    calls: seq<Call>,
    accounts: set<Username>,    // names the identity provider holds
    outside: set<Username>,     // those of them that it holds for other reasons than a call
    returned: set<Username>)    // registration has returned

  /** An empty filter before a provider that holds these names, such as those of an imported realm. */
  function Init(existing: set<Username>): State {
    State({}, [], existing, existing, {})
  }

  datatype Label =
    | Begin(user: Username)
    | ReadBit(call: nat, probe: nat)
    | Decide(call: nat)
    | Create(call: nat, accepted: bool)
    | Assign(call: nat)
    | WriteBit(call: nat, probe: nat)
    | Return(call: nat)
    | Throw(call: nat)              // after the account was created
    | Provision(user: Username)     // the provider gains a name without a call

  const ALL_PROBES: set<nat> := {0, 1, 2, 3, 4, 5, 6}

  predicate HasReturned(c: Call) {
    c.Finished? && c.outcome.Registered?
  }

  /** The account was created for this call, which has not thrown. */
  predicate Accepted(c: Call) {
    c.Assigning? || c.Adding? || HasReturned(c)
  }

  /** The account was created for this call. */
  predicate OwnsAccount(c: Call) {
    Accepted(c) || c.Broken?
  }

  /** The call's SETBITs are on their way; those of a call that threw still arrive. */
  predicate Writing(c: Call) {
    c.Adding? || (c.Broken? && c.sent)
  }

  function ReturnedCalls(calls: seq<Call>): set<nat> {
    set k | 0 <= k < |calls| && HasReturned(calls[k])
  }

  predicate Enabled(s: State, l: Label) {
    match l
    case Begin(_) => true
    case ReadBit(i, j) => i < |s.calls| && s.calls[i].Reading? && j < NUM_HASHES && j !in s.calls[i].read
    case Decide(i) => i < |s.calls| && s.calls[i].Reading? && s.calls[i].read == ALL_PROBES
    case Create(i, _) => i < |s.calls| && s.calls[i].Creating?
    case Assign(i) => i < |s.calls| && s.calls[i].Assigning?
    case WriteBit(i, j) => i < |s.calls| && Writing(s.calls[i]) && j < NUM_HASHES && j !in s.calls[i].written
    case Return(i) => i < |s.calls| && s.calls[i].Adding? && s.calls[i].written == ALL_PROBES
    case Throw(i) => i < |s.calls| && (s.calls[i].Assigning? || s.calls[i].Adding?)
    case Provision(_) => true
  }

  function Do(s: State, l: Label): State {
    if !Enabled(s, l) then s else
    match l
    case Begin(user) =>
      s.(calls := s.calls + [Reading(user, ReturnedCalls(s.calls), {}, false)])
    case ReadBit(i, j) =>
      var c := s.calls[i];
      s.(calls := s.calls[i := c.(read := c.read + {j}, sawZero := c.sawZero || Positions(c.user)[j] !in s.bits)])
    case Decide(i) =>
      var c := s.calls[i];
      s.(calls := s.calls[i := if c.sawZero then Creating(c.user, c.earlier)
                               else Finished(c.user, c.earlier, Conflict)])
    case Create(i, accepted) =>
      var c := s.calls[i];
      if accepted then s.(calls := s.calls[i := Assigning(c.user, c.earlier)], accounts := s.accounts + {c.user})
      else s.(calls := s.calls[i := Finished(c.user, c.earlier, IdentityRefused)])
    case Assign(i) =>
      var c := s.calls[i];
      s.(calls := s.calls[i := Adding(c.user, c.earlier, {})])
    case WriteBit(i, j) =>
      var c := s.calls[i];
      s.(bits := s.bits + {Positions(c.user)[j]}, calls := s.calls[i := c.(written := c.written + {j})])
    case Return(i) =>
      var c := s.calls[i];
      s.(calls := s.calls[i := Finished(c.user, c.earlier, Registered)], returned := s.returned + {c.user})
    case Throw(i) =>
      var c := s.calls[i];
      s.(calls := s.calls[i := if c.Adding? then Broken(c.user, c.earlier, c.written, true)
                               else Broken(c.user, c.earlier, {}, false)])
    case Provision(user) =>
      s.(accounts := s.accounts + {user}, outside := s.outside + {user})
  }

  function Exec(s: State, labels: seq<Label>): State {
    if labels == [] then s
    else Do(Exec(s, labels[..|labels| - 1]), labels[|labels| - 1])
  }

  lemma ExecStep(s: State, labels: seq<Label>, l: Label)
    ensures Exec(s, labels + [l]) == Do(Exec(s, labels), l)
  {
    assert (labels + [l])[..|labels|] == labels;
  }

  /** The probe `j` of the call has been written. */
  predicate Wrote(c: Call, j: nat) {
    j < NUM_HASHES && (((c.Adding? || c.Broken?) && j in c.written) || HasReturned(c))
  }

  /** Some call has set this bit. */
  ghost predicate Written(calls: seq<Call>, bit: nat) {
    exists i, j: nat :: 0 <= i < |calls| && Wrote(calls[i], j) && Positions(calls[i].user)[j] == bit
  }

  ghost predicate BitsInv(s: State) {
    forall bit: nat :: bit in s.bits <==> Written(s.calls, bit)
  }

  /** Another call registered the same name, and had returned when this one began. */
  predicate Precedes(calls: seq<Call>, k: nat, c: Call) {
    k in c.earlier && k < |calls| && calls[k].user == c.user
  }

  /** A call that began after the name was registered has seen no zero and goes no further than the filter. */
  ghost predicate LateInv(s: State, c: Call) {
    && (forall k :: k in c.earlier ==> k < |s.calls| && HasReturned(s.calls[k]))
    && (forall k :: Precedes(s.calls, k, c) ==>
          (c.Reading? && !c.sawZero) || c == Finished(c.user, c.earlier, Conflict))
  }

  ghost predicate Origin(s: State, user: Username) {
    user in s.outside || exists k :: 0 <= k < |s.calls| && s.calls[k].user == user && OwnsAccount(s.calls[k])
  }

  ghost predicate Inv(s: State) {
    && BitsInv(s)
    && (forall i :: 0 <= i < |s.calls| ==> LateInv(s, s.calls[i]))
    && (forall i :: 0 <= i < |s.calls| && HasReturned(s.calls[i]) ==> s.calls[i].user in s.returned)
    && (forall i :: 0 <= i < |s.calls| && OwnsAccount(s.calls[i]) ==> s.calls[i].user in s.accounts)
    && (forall u :: u in s.returned ==> PositionSet(u) <= s.bits)
    && s.outside <= s.accounts
    && (forall u :: u in s.accounts ==> Origin(s, u))
  }

  lemma BeginKeepsBits(s: State, user: Username)
    requires BitsInv(s)
    ensures BitsInv(Do(s, Begin(user)))
  {
    var t := Do(s, Begin(user));
    forall bit: nat
      ensures Written(t.calls, bit) <==> Written(s.calls, bit)
    {
      if Written(s.calls, bit) {
        var i, j: nat :| 0 <= i < |s.calls| && Wrote(s.calls[i], j) && Positions(s.calls[i].user)[j] == bit;
        assert Wrote(t.calls[i], j);
      }
    }
  }

  lemma WriteKeepsBits(s: State, i: nat, j: nat)
    requires BitsInv(s) && Enabled(s, WriteBit(i, j))
    ensures BitsInv(Do(s, WriteBit(i, j)))
  {
    var t := Do(s, WriteBit(i, j));
    MovedCall(s.calls, t.calls, i);
    assert Wrote(t.calls[i], j);
  }

  /** A call moves on and its writes stay what they are. */
  lemma MoveKeepsBits(s: State, t: State, i: nat)
    requires BitsInv(s) && i < |s.calls| == |t.calls| && t.calls == s.calls[i := t.calls[i]] && t.bits == s.bits
    requires t.calls[i].user == s.calls[i].user && forall j: nat :: Wrote(s.calls[i], j) <==> Wrote(t.calls[i], j)
    ensures BitsInv(t)
  {
    MovedCall(s.calls, t.calls, i);
  }

  lemma StepKeepsBits(s: State, l: Label)
    requires BitsInv(s)
    ensures BitsInv(Do(s, l))
  {
    if Enabled(s, l) {
      match l
      case Begin(user) => BeginKeepsBits(s, user);
      case WriteBit(i, j) => WriteKeepsBits(s, i, j);
      case Provision(_) =>
      case _ => MoveKeepsBits(s, Do(s, l), l.call);
    }
  }

  /** One call moves on without forgetting what it wrote. */
  lemma MovedCall(before: seq<Call>, after: seq<Call>, i: nat)
    requires i < |before| && |after| == |before| && after == before[i := after[i]]
    requires after[i].user == before[i].user && forall j: nat :: Wrote(before[i], j) ==> Wrote(after[i], j)
    ensures forall bit: nat :: Written(before, bit) ==> Written(after, bit)
    ensures forall bit: nat :: Written(after, bit) ==>
              || Written(before, bit)
              || exists j: nat :: Wrote(after[i], j) && !Wrote(before[i], j) && Positions(after[i].user)[j] == bit
  {
    forall bit: nat | Written(before, bit)
      ensures Written(after, bit)
    {
      var k, j: nat :| 0 <= k < |before| && Wrote(before[k], j) && Positions(before[k].user)[j] == bit;
      assert Wrote(after[k], j);
    }
    forall bit: nat | Written(after, bit)
      ensures || Written(before, bit)
              || exists j: nat :: Wrote(after[i], j) && !Wrote(before[i], j) && Positions(after[i].user)[j] == bit
    {
      var k, j: nat :| 0 <= k < |after| && Wrote(after[k], j) && Positions(after[k].user)[j] == bit;
      if k != i {
        assert Wrote(before[k], j);
      }
    }
  }

  lemma ReturnCoversPositions(s: State, i: nat)
    requires BitsInv(s) && i < |s.calls| && s.calls[i].Adding? && s.calls[i].written == ALL_PROBES
    ensures PositionSet(s.calls[i].user) <= s.bits
  {
    var c := s.calls[i];
    forall p | p in PositionSet(c.user)
      ensures p in s.bits
    {
      var j :| 0 <= j < NUM_HASHES && Positions(c.user)[j] == p;
      assert Wrote(c, j);
      assert Written(s.calls, p);
    }
  }

  /** A step leaves names and returned calls as they were. */
  lemma StepKeepsReturned(s: State, l: Label, k: nat)
    requires k < |s.calls|
    ensures k < |Do(s, l).calls| && Do(s, l).calls[k].user == s.calls[k].user
    ensures HasReturned(s.calls[k]) ==> Do(s, l).calls[k] == s.calls[k]
  {
  }

  lemma StepKeepsLate(s: State, l: Label, i: nat)
    requires Inv(s) && i < |s.calls|
    ensures LateInv(Do(s, l), Do(s, l).calls[i])
  {
    var t := Do(s, l);
    var c := s.calls[i];
    assert LateInv(s, c);
    forall k: nat | k in c.earlier
      ensures k < |t.calls| && HasReturned(t.calls[k]) && t.calls[k].user == s.calls[k].user
    {
      StepKeepsReturned(s, l, k);
    }
    forall k: nat | Precedes(t.calls, k, t.calls[i])
      ensures (t.calls[i].Reading? && !t.calls[i].sawZero) || t.calls[i] == Finished(c.user, c.earlier, Conflict)
    {
      assert Precedes(s.calls, k, c);
      assert HasReturned(s.calls[k]) && PositionSet(c.user) <= s.bits;
      if Enabled(s, l) && l.ReadBit? && l.call == i {
        assert Positions(c.user)[l.probe] in PositionSet(c.user);
      }
    }
  }

  lemma StepKeepsInv(s: State, l: Label)
    requires Inv(s)
    ensures Inv(Do(s, l))
  {
    var t := Do(s, l);
    StepKeepsBits(s, l);
    forall i | 0 <= i < |t.calls|
      ensures LateInv(t, t.calls[i])
    {
      if i < |s.calls| {
        StepKeepsLate(s, l, i);
      }
    }
    if Enabled(s, l) && l.Return? {
      ReturnCoversPositions(s, l.call);
    }
    forall u | u in t.accounts
      ensures Origin(t, u)
    {
      StepKeepsOrigin(s, l, u);
    }
  }

  lemma StepKeepsOrigin(s: State, l: Label, u: Username)
    requires u in s.accounts ==> Origin(s, u)
    requires u in Do(s, l).accounts
    ensures Origin(Do(s, l), u)
  {
    var t := Do(s, l);
    if u in t.outside {
    } else if u in s.accounts {
      var k :| 0 <= k < |s.calls| && s.calls[k].user == u && OwnsAccount(s.calls[k]);
      assert t.calls[k].user == u && OwnsAccount(t.calls[k]);
    } else {
      assert t.calls[l.call].user == u && OwnsAccount(t.calls[l.call]);
    }
  }

  lemma {:induction false} RunInv(existing: set<Username>, labels: seq<Label>)
    ensures Inv(Exec(Init(existing), labels))
  {
    if labels == [] {
    } else {
      RunInv(existing, labels[..|labels| - 1]);
      StepKeepsInv(Exec(Init(existing), labels[..|labels| - 1]), labels[|labels| - 1]);
    }
  }

  // --------------------------------------------------------------- results

  /** In any order of interleaved writes, the set bits are exactly the probes written by complete and partial adds. */
  lemma BitsAreTheUnionOfAdds(existing: set<Username>, labels: seq<Label>, bit: nat)
    ensures bit in Exec(Init(existing), labels).bits <==> Written(Exec(Init(existing), labels).calls, bit)
  {
    RunInv(existing, labels);
  }

  lemma {:induction false} BitsOnlyRise(s: State, labels: seq<Label>)
    ensures s.bits <= Exec(s, labels).bits && s.returned <= Exec(s, labels).returned
  {
    if labels == [] {
    } else {
      BitsOnlyRise(s, labels[..|labels| - 1]);
    }
  }

  /** Once a registration has returned, the filter answers yes for that name at every later point of the run. */
  lemma ReturnedNamesAreFound(existing: set<Username>, before: seq<Label>, after: seq<Label>, user: Username)
    requires user in Exec(Init(existing), before).returned
    ensures PositionSet(user) <= Exec(Exec(Init(existing), before), after).bits
  {
    RunInv(existing, before);
    BitsOnlyRise(Exec(Init(existing), before), after);
  }

  /**
    A registration that begins after one of the same name has returned is stopped by the filter: it never reaches
    the identity provider, and if it finishes it finishes with a conflict, however its probe reads interleave.
    So two successful registrations of one name always overlap in time.
   */
  lemma LateRegistrationIsRejected(existing: set<Username>, labels: seq<Label>, i: nat, k: nat)
    requires i < |Exec(Init(existing), labels).calls|
    requires Precedes(Exec(Init(existing), labels).calls, k, Exec(Init(existing), labels).calls[i])
    ensures var c := Exec(Init(existing), labels).calls[i];
            c.Reading? || c == Finished(c.user, c.earlier, Conflict)
  {
    RunInv(existing, labels);
    assert LateInv(Exec(Init(existing), labels), Exec(Init(existing), labels).calls[i]);
  }

  /** Call `k` is another registration of the same name, already accepted, that had not returned when call `i` began. */
  predicate OverlapsAccepted(s: State, i: nat, k: nat)
    requires i < |s.calls|
  {
    k < |s.calls| && k != i && s.calls[k].user == s.calls[i].user && Accepted(s.calls[k]) && k !in s.calls[i].earlier
  }

  /** Call `k` is a registration of the same name that threw after its account had been created. */
  predicate BrokenNamesake(s: State, i: nat, k: nat)
    requires i < |s.calls|
  {
    k < |s.calls| && s.calls[k].user == s.calls[i].user && s.calls[k].Broken?
  }

  /**
    When the seven reads of call `i` have answered no, the name is new to the provider if and only if the provider
    does not hold it for other reasons, no registration of it threw after its account was created, and no accepted
    registration of it overlaps with the call.
   */
  lemma NegativeIsDefinitiveIff(existing: set<Username>, labels: seq<Label>, i: nat)
    requires Enabled(Exec(Init(existing), labels), Decide(i)) && Exec(Init(existing), labels).calls[i].sawZero
    ensures var s := Exec(Init(existing), labels);
            s.calls[i].user !in s.accounts <==>
            && s.calls[i].user !in s.outside
            && (!exists k :: BrokenNamesake(s, i, k))
            && (!exists k :: OverlapsAccepted(s, i, k))
  {
    RunInv(existing, labels);
    var s := Exec(Init(existing), labels);
    var u := s.calls[i].user;
    assert LateInv(s, s.calls[i]);
    if u in s.accounts && u !in s.outside {
      var k :| 0 <= k < |s.calls| && s.calls[k].user == u && OwnsAccount(s.calls[k]);
      assert !Precedes(s.calls, k, s.calls[i]);
      assert BrokenNamesake(s, i, k) || OverlapsAccepted(s, i, k);
    }
  }

  /** A run's other accounts: those it began with and those provisioned since. */
  lemma {:induction false} OutsideIs(existing: set<Username>, labels: seq<Label>, user: Username)
    ensures user in Exec(Init(existing), labels).outside <==> user in existing || Provision(user) in labels
  {
    if labels == [] {
    } else {
      var init := labels[..|labels| - 1];
      OutsideIs(existing, init, user);
      assert labels == init + [labels[|labels| - 1]];
    }
  }

  // --------------------------------------------- wrong negatives are caught

  /** The provider never creates an account under a name it holds. */
  predicate Honest(s: State, labels: seq<Label>) {
    labels == [] ||
    var init := labels[..|labels| - 1];
    var (before, l) := (Exec(s, init), labels[|labels| - 1]);
    Honest(s, init) && (l.Create? && l.accepted && Enabled(before, l) ==> before.calls[l.call].user !in before.accounts)
  }

  /** No account has been created for this call. */
  predicate NoAccountYet(c: Call) {
    c.Reading? || c.Creating? || (c.Finished? && !c.outcome.Registered?)
  }

  lemma {:induction false} AccountsOnlyRise(s: State, labels: seq<Label>)
    ensures s.accounts <= Exec(s, labels).accounts && s.outside <= Exec(s, labels).outside
  {
    if labels == [] {
    } else {
      AccountsOnlyRise(s, labels[..|labels| - 1]);
    }
  }

  /**
    A wrong answer of the filter costs one request and no more: before a provider that holds each name once, a call
    whose name has an account before its own is created ends in a refusal or a conflict, if it ends.
   */
  lemma {:induction false} WrongNegativeIsCaught(s: State, i: nat, labels: seq<Label>)
    requires i < |s.calls| && NoAccountYet(s.calls[i]) && s.calls[i].user in s.accounts && Honest(s, labels)
    ensures i < |Exec(s, labels).calls| && Exec(s, labels).calls[i].user == s.calls[i].user
    ensures NoAccountYet(Exec(s, labels).calls[i])
  {
    if labels == [] {
    } else {
      WrongNegativeIsCaught(s, i, labels[..|labels| - 1]);
      AccountsOnlyRise(s, labels[..|labels| - 1]);
    }
  }

  ghost predicate OneOwner(existing: set<Username>, s: State) {
    && existing <= s.accounts
    && (forall i :: 0 <= i < |s.calls| && OwnsAccount(s.calls[i]) ==>
          s.calls[i].user in s.accounts && s.calls[i].user !in existing)
    && (forall j, k :: 0 <= j < k < |s.calls| && OwnsAccount(s.calls[j]) && OwnsAccount(s.calls[k]) ==>
          s.calls[j].user != s.calls[k].user)
  }

  lemma CreateKeepsOwner(existing: set<Username>, s: State, i: nat)
    requires OneOwner(existing, s) && Enabled(s, Create(i, true)) && s.calls[i].user !in s.accounts
    ensures OneOwner(existing, Do(s, Create(i, true)))
  {
  }

  /** A step that creates no account changes no owner. */
  lemma StepKeepsOwners(s: State, l: Label, k: nat)
    requires k < |Do(s, l).calls| && !(l.Create? && l.accepted)
    ensures OwnsAccount(Do(s, l).calls[k]) ==>
              k < |s.calls| && OwnsAccount(s.calls[k]) && s.calls[k].user == Do(s, l).calls[k].user
    ensures s.accounts <= Do(s, l).accounts
  {
  }

  lemma StepKeepsOneOwner(existing: set<Username>, s: State, l: Label)
    requires OneOwner(existing, s)
    requires l.Create? && l.accepted && Enabled(s, l) ==> s.calls[l.call].user !in s.accounts
    ensures OneOwner(existing, Do(s, l))
  {
    var t := Do(s, l);
    if l.Create? && l.accepted {
      if Enabled(s, l) {
        CreateKeepsOwner(existing, s, l.call);
      }
    } else {
      forall k | 0 <= k < |t.calls| && OwnsAccount(t.calls[k])
        ensures k < |s.calls| && OwnsAccount(s.calls[k]) && s.calls[k].user == t.calls[k].user
      {
        StepKeepsOwners(s, l, k);
      }
    }
  }

  /** Before such a provider no two calls create an account of one name, and none creates one that was there. */
  lemma {:induction false} OneAccountPerName(existing: set<Username>, labels: seq<Label>)
    requires Honest(Init(existing), labels)
    ensures OneOwner(existing, Exec(Init(existing), labels))
  {
    if labels == [] {
    } else {
      OneAccountPerName(existing, labels[..|labels| - 1]);
      StepKeepsOneOwner(existing, Exec(Init(existing), labels[..|labels| - 1]), labels[|labels| - 1]);
    }
  }

  // ------------------------------------------------- the filter's answer

  /** What the call has seen set is set. */
  ghost predicate SeenSet(c: Call, bits: set<nat>) {
    && (c.Reading? && !c.sawZero ==> forall j :: j in c.read && j < NUM_HASHES ==> Positions(c.user)[j] in bits)
    && (c.Finished? && c.outcome.Conflict? ==> PositionSet(c.user) <= bits)
  }

  lemma SeenStaysSet(c: Call, bits: set<nat>, more: set<nat>)
    requires SeenSet(c, bits) && bits <= more
    ensures SeenSet(c, more)
  {
  }

  lemma AllSeen(c: Call, bits: set<nat>)
    requires c.Reading? && !c.sawZero && c.read == ALL_PROBES && SeenSet(c, bits)
    ensures PositionSet(c.user) <= bits
  {
    forall p | p in PositionSet(c.user)
      ensures p in bits
    {
      var j :| 0 <= j < NUM_HASHES && Positions(c.user)[j] == p;
      assert j in c.read;
    }
  }

  lemma StepKeepsSeen(s: State, l: Label, i: nat)
    requires i < |s.calls| && SeenSet(s.calls[i], s.bits)
    ensures SeenSet(Do(s, l).calls[i], Do(s, l).bits)
  {
    var (c, t) := (s.calls[i], Do(s, l));
    SeenStaysSet(c, s.bits, t.bits);
    if l == Decide(i) && Enabled(s, l) && !c.sawZero {
      AllSeen(c, s.bits);
    }
  }

  ghost predicate SeenInv(s: State) {
    forall i :: 0 <= i < |s.calls| ==> SeenSet(s.calls[i], s.bits)
  }

  /** Calls come only at the end, and begin without having read. */
  lemma StepAddsCall(s: State, l: Label)
    ensures |s.calls| <= |Do(s, l).calls|
    ensures forall i :: |s.calls| <= i < |Do(s, l).calls| ==>
              Do(s, l).calls[i].Reading? && Do(s, l).calls[i].read == {}
  {
  }

  lemma StepKeepsSeenInv(s: State, l: Label)
    requires SeenInv(s)
    ensures SeenInv(Do(s, l))
  {
    StepAddsCall(s, l);
    var t := Do(s, l);
    forall i | 0 <= i < |t.calls|
      ensures SeenSet(t.calls[i], t.bits)
    {
      if i < |s.calls| {
        StepKeepsSeen(s, l, i);
      }
    }
  }

  lemma {:induction false} RunKeepsSeen(existing: set<Username>, labels: seq<Label>)
    ensures SeenInv(Exec(Init(existing), labels))
  {
    if labels == [] {
    } else {
      RunKeepsSeen(existing, labels[..|labels| - 1]);
      StepKeepsSeenInv(Exec(Init(existing), labels[..|labels| - 1]), labels[|labels| - 1]);
    }
  }

  /** In every run a call is told that its name may exist only if all seven bits of the name are set. */
  lemma ConflictMeansCovered(existing: set<Username>, labels: seq<Label>, i: nat)
    requires var s := Exec(Init(existing), labels);
             i < |s.calls| && s.calls[i].Finished? && s.calls[i].outcome.Conflict?
    ensures var s := Exec(Init(existing), labels); SlotSet(s.calls[i].user) <= s.bits
  {
    RunKeepsSeen(existing, labels);
    SlotSetIs(Exec(Init(existing), labels).calls[i].user);
  }

  /** Whatever else happens, a call that begins when all seven bits of its name are set can only be told that. */
  lemma {:induction false} CoveredMeansConflict(s: State, user: Username, labels: seq<Label>)
    requires SlotSet(user) <= s.bits
    ensures var i := |s.calls|;
            var t := Exec(Do(s, Begin(user)), labels);
            && i < |t.calls| && t.calls[i].user == user
            && ((t.calls[i].Reading? && !t.calls[i].sawZero) ||
                (t.calls[i].Finished? && t.calls[i].outcome.Conflict?))
  {
    if labels == [] {
    } else {
      var n := |labels| - 1;
      CoveredMeansConflict(s, user, labels[..n]);
      BitsOnlyRise(Do(s, Begin(user)), labels[..n]);
      SlotSetIs(user);
      var t := Exec(Do(s, Begin(user)), labels[..n]);
      assert forall j :: 0 <= j < NUM_HASHES ==> Positions(user)[j] in PositionSet(user);
    }
  }

  // ------------------------------------------------ uninterrupted calls

  /** The probes below `n`. */
  function Below(n: nat): set<nat> {
    if n == 0 then {} else Below(n - 1) + {n - 1}
  }

  lemma {:induction false} NotBelow(n: nat)
    ensures forall j :: j in Below(n) <==> 0 <= j < n
  {
    if n == 0 {
    } else {
      NotBelow(n - 1);
    }
  }

  /** The positions of the probes below `n`. */
  function FirstPositions(user: Username, n: nat): set<nat>
    requires n <= NUM_HASHES
  {
    if n == 0 then {} else FirstPositions(user, n - 1) + {Positions(user)[n - 1]}
  }

  lemma AllBelow(user: Username)
    ensures Below(NUM_HASHES) == ALL_PROBES
    ensures FirstPositions(user, NUM_HASHES) == PositionSet(user)
  {
    assert Below(3) == {0, 1, 2} && Below(5) == {0, 1, 2, 3, 4};
    FirstPositionsAre(user, NUM_HASHES);
    assert Positions(user)[..NUM_HASHES] == Positions(user);
  }

  lemma {:induction false} FirstPositionsAre(user: Username, n: nat)
    requires n <= NUM_HASHES
    ensures FirstPositions(user, n) == set p | p in Positions(user)[..n]
  {
    if n == 0 {
    } else {
      FirstPositionsAre(user, n - 1);
      assert Positions(user)[..n] == Positions(user)[..n - 1] + [Positions(user)[n - 1]];
    }
  }

  /** Call `i` reads the probes below `n`. */
  function Reads(i: nat, n: nat): seq<Label> {
    if n == 0 then [] else Reads(i, n - 1) + [ReadBit(i, n - 1)]
  }

  /** Call `i` writes the probes below `n`. */
  function Writes(i: nat, n: nat): seq<Label> {
    if n == 0 then [] else Writes(i, n - 1) + [WriteBit(i, n - 1)]
  }

  lemma {:induction false} ReadsSeeZeros(s: State, i: nat, n: nat)
    requires i < |s.calls| && s.calls[i].Reading? && s.calls[i].read == {} && !s.calls[i].sawZero && n <= NUM_HASHES
    ensures var c := s.calls[i];
            Exec(s, Reads(i, n)) ==
            s.(calls := s.calls[i := Reading(c.user, c.earlier, Below(n), !(FirstPositions(c.user, n) <= s.bits))])
  {
    if n == 0 {
      assert s.calls == s.calls[i := s.calls[i]];
    } else {
      ReadsSeeZeros(s, i, n - 1);
      ExecStep(s, Reads(i, n - 1), ReadBit(i, n - 1));
      OneRead(s, i, n);
    }
  }

  lemma OneRead(s: State, i: nat, n: nat)
    requires i < |s.calls| && s.calls[i].Reading? && 0 < n <= NUM_HASHES
    ensures var c := s.calls[i];
            Do(s.(calls := s.calls[i := Reading(c.user, c.earlier, Below(n - 1),
                                                !(FirstPositions(c.user, n - 1) <= s.bits))]),
               ReadBit(i, n - 1)) ==
            s.(calls := s.calls[i := Reading(c.user, c.earlier, Below(n), !(FirstPositions(c.user, n) <= s.bits))])
  {
    var c := s.calls[i];
    NotBelow(n - 1);
    var b := FirstPositions(c.user, n - 1) <= s.bits;
    var d := FirstPositions(c.user, n) <= s.bits;
    assert d <==> b && Positions(c.user)[n - 1] in s.bits;
    assert s.calls[i := Reading(c.user, c.earlier, Below(n - 1), !b)][i := Reading(c.user, c.earlier, Below(n), !d)]
        == s.calls[i := Reading(c.user, c.earlier, Below(n), !d)];
  }

  lemma OneWrite(s: State, i: nat, n: nat)
    requires i < |s.calls| && s.calls[i].Adding? && 0 < n <= NUM_HASHES
    ensures var c := s.calls[i];
            Do(s.(bits := s.bits + FirstPositions(c.user, n - 1),
                  calls := s.calls[i := Adding(c.user, c.earlier, Below(n - 1))]),
               WriteBit(i, n - 1)) ==
            s.(bits := s.bits + FirstPositions(c.user, n), calls := s.calls[i := Adding(c.user, c.earlier, Below(n))])
  {
    var c := s.calls[i];
    NotBelow(n - 1);
    assert s.bits + FirstPositions(c.user, n) == s.bits + FirstPositions(c.user, n - 1) + {Positions(c.user)[n - 1]};
    assert s.calls[i := Adding(c.user, c.earlier, Below(n - 1))][i := Adding(c.user, c.earlier, Below(n))]
        == s.calls[i := Adding(c.user, c.earlier, Below(n))];
  }

  lemma {:induction false} WritesSetBits(s: State, i: nat, n: nat)
    requires i < |s.calls| && s.calls[i].Adding? && s.calls[i].written == {} && n <= NUM_HASHES
    ensures var c := s.calls[i];
            Exec(s, Writes(i, n)) ==
            s.(bits := s.bits + FirstPositions(c.user, n), calls := s.calls[i := Adding(c.user, c.earlier, Below(n))])
  {
    if n == 0 {
      assert s.calls == s.calls[i := s.calls[i]];
      assert s.bits + {} == s.bits;
    } else {
      WritesSetBits(s, i, n - 1);
      ExecStep(s, Writes(i, n - 1), WriteBit(i, n - 1));
      OneWrite(s, i, n);
    }
  }

  /** The first half of a call: begin, read all probes, decide. */
  function CheckSchedule(i: nat, user: Username): seq<Label> {
    [Begin(user)] + (Reads(i, NUM_HASHES) + [Decide(i)])
  }

  lemma ReadsDecide(s: State, i: nat)
    requires i < |s.calls| && s.calls[i].Reading? && s.calls[i].read == {} && !s.calls[i].sawZero
    ensures var c := s.calls[i];
            Exec(s, Reads(i, NUM_HASHES) + [Decide(i)]) ==
            s.(calls := s.calls[i := if PositionSet(c.user) <= s.bits then Finished(c.user, c.earlier, Conflict)
                                     else Creating(c.user, c.earlier)])
  {
    ReadsSeeZeros(s, i, NUM_HASHES);
    AllBelow(s.calls[i].user);
    ExecStep(s, Reads(i, NUM_HASHES), Decide(i));
  }

  lemma CheckDecides(s: State, user: Username)
    ensures var i := |s.calls|;
            var earlier := ReturnedCalls(s.calls);
            Exec(s, CheckSchedule(i, user)) ==
            s.(calls := s.calls + [if PositionSet(user) <= s.bits then Finished(user, earlier, Conflict)
                                else Creating(user, earlier)])
  {
    var i := |s.calls|;
    ExecStep(s, [], Begin(user));
    assert [] + [Begin(user)] == [Begin(user)];
    ReadsDecide(Do(s, Begin(user)), i);
    ExecThen(s, [Begin(user)], Reads(i, NUM_HASHES) + [Decide(i)]);
  }

  /** The second half: create, assign the role, write all bits, return; steps that do not apply change nothing. */
  function CreateSchedule(i: nat, accepted: bool): seq<Label> {
    [Create(i, accepted)] + [Assign(i)] + Writes(i, NUM_HASHES) + [Return(i)]
  }

  lemma CreateScheduleRuns(s: State, i: nat, accepted: bool)
    ensures Exec(s, CreateSchedule(i, accepted)) ==
            Do(Exec(Do(Do(s, Create(i, accepted)), Assign(i)), Writes(i, NUM_HASHES)), Return(i))
  {
    var first := [Create(i, accepted)] + [Assign(i)];
    ExecStep(s, [], Create(i, accepted));
    assert [] + [Create(i, accepted)] == [Create(i, accepted)];
    ExecStep(s, [Create(i, accepted)], Assign(i));
    ExecThen(s, first, Writes(i, NUM_HASHES));
    ExecStep(s, first + Writes(i, NUM_HASHES), Return(i));
  }

  lemma WritesThenReturn(s: State, i: nat)
    requires i < |s.calls| && s.calls[i].Adding? && s.calls[i].written == {}
    ensures var c := s.calls[i];
            Do(Exec(s, Writes(i, NUM_HASHES)), Return(i)) ==
            s.(bits := s.bits + PositionSet(c.user), calls := s.calls[i := Finished(c.user, c.earlier, Registered)],
               returned := s.returned + {c.user})
  {
    WritesSetBits(s, i, NUM_HASHES);
    AllBelow(s.calls[i].user);
  }

  lemma CreateThenAssign(s: State, i: nat)
    requires i < |s.calls| && s.calls[i].Creating?
    ensures var c := s.calls[i];
            Do(Do(s, Create(i, true)), Assign(i)) ==
            s.(calls := s.calls[i := Adding(c.user, c.earlier, {})], accounts := s.accounts + {c.user})
  {
  }

  lemma CreateAdds(s: State, i: nat, accepted: bool)
    requires i < |s.calls| && s.calls[i].Creating?
    ensures var c := s.calls[i];
            Exec(s, CreateSchedule(i, accepted)) ==
            if accepted then
              s.(bits := s.bits + PositionSet(c.user), calls := s.calls[i := Finished(c.user, c.earlier, Registered)],
                 accounts := s.accounts + {c.user}, returned := s.returned + {c.user})
            else s.(calls := s.calls[i := Finished(c.user, c.earlier, IdentityRefused)])
  {
    CreateScheduleRuns(s, i, accepted);
    var t := Do(Do(s, Create(i, accepted)), Assign(i));
    var done := Finished(s.calls[i].user, s.calls[i].earlier, Registered);
    if accepted {
      CreateThenAssign(s, i);
      WritesThenReturn(t, i);
      assert t.calls[i := done] == s.calls[i := done];
    } else {
      IdleSteps(t, i, NUM_HASHES);
    }
  }

  lemma {:induction false} IdleSteps(s: State, i: nat, n: nat)
    requires i < |s.calls| && s.calls[i].Finished?
    ensures Exec(s, Writes(i, n)) == s
  {
    if n == 0 {
    } else {
      IdleSteps(s, i, n - 1);
      ExecStep(s, Writes(i, n - 1), WriteBit(i, n - 1));
    }
  }

  lemma {:induction false} ExecThen(s: State, before: seq<Label>, after: seq<Label>)
    ensures Exec(s, before + after) == Exec(Exec(s, before), after)
  {
    if after == [] {
      assert before + after == before;
    } else {
      var n := |after| - 1;
      assert (before + after)[..|before| + n] == before + after[..n];
      ExecThen(s, before, after[..n]);
    }
  }

  /** For every name: a run after which the account exists and the filter lacks a bit of it. */
  lemma FalseNegativeIsReachable(existing: set<Username>, user: Username)
    ensures var s := Exec(Init(existing), CheckSchedule(0, user) + [Create(0, true)]);
            user in s.accounts && !(PositionSet(user) <= s.bits)
  {
    assert Positions(user)[0] in PositionSet(user);
    CheckDecides(Init(existing), user);
    ExecStep(Init(existing), CheckSchedule(0, user), Create(0, true));
  }

  /** On a fresh deployment the filter denies every name that the provider came with. */
  lemma SeededNameIsDenied(existing: set<Username>, user: Username)
    requires user in existing
    ensures var s := Exec(Init(existing), CheckSchedule(0, user));
            s.calls == [Creating(user, {})] && user in s.accounts
  {
    assert Positions(user)[0] in PositionSet(user);
    assert ReturnedCalls(Init(existing).calls) == {};
    CheckDecides(Init(existing), user);
  }

  /** A registration whose account is created and whose role is not. */
  function BrokenSchedule(user: Username): seq<Label> {
    CheckSchedule(0, user) + [Create(0, true)] + [Throw(0)]
  }

  lemma BrokenStart(existing: set<Username>, user: Username)
    ensures Exec(Init(existing), BrokenSchedule(user)) ==
            Init(existing).(calls := [Broken(user, {}, {}, false)], accounts := existing + {user})
  {
    var s := Init(existing);
    assert Positions(user)[0] in PositionSet(user);
    assert ReturnedCalls(s.calls) == {};
    CheckDecides(s, user);
    ExecStep(s, CheckSchedule(0, user), Create(0, true));
    ExecStep(s, CheckSchedule(0, user) + [Create(0, true)], Throw(0));
  }

  /** For every name: a later call is told no, without any overlap, although the account exists. */
  lemma BrokenNameIsDenied(existing: set<Username>, user: Username)
    ensures var s := Exec(Init(existing), BrokenSchedule(user) + CheckSchedule(1, user));
            s.calls == [Broken(user, {}, {}, false), Creating(user, {})] && user in s.accounts
  {
    var t := Exec(Init(existing), BrokenSchedule(user));
    BrokenStart(existing, user);
    assert Positions(user)[0] in PositionSet(user);
    assert ReturnedCalls(t.calls) == {};
    CheckDecides(t, user);
    ExecThen(Init(existing), BrokenSchedule(user), CheckSchedule(1, user));
  }

  /** Call `i`, having read probe 0, reads the probes 1 .. n. */
  function LaterReads(i: nat, n: nat): seq<Label> {
    if n <= 1 then [] else LaterReads(i, n - 1) + [ReadBit(i, n - 1)]
  }

  /** A call that has seen a zero reads on without learning more. */
  lemma ReadKeepsZero(s: State, i: nat, n: nat)
    requires i < |s.calls| && s.calls[i].Reading? && s.calls[i].read == Below(n) && s.calls[i].sawZero
    requires n < NUM_HASHES
    ensures Do(s, ReadBit(i, n)) == s.(calls := s.calls[i := s.calls[i].(read := Below(n + 1))])
  {
    NotBelow(n);
  }

  lemma {:induction false} LaterReadsKeepZero(s: State, i: nat, n: nat)
    requires i < |s.calls| && s.calls[i].Reading? && s.calls[i].read == Below(1) && s.calls[i].sawZero
    requires 1 <= n <= NUM_HASHES
    ensures Exec(s, LaterReads(i, n)) == s.(calls := s.calls[i := s.calls[i].(read := Below(n))])
  {
    if n == 1 {
      assert s.calls == s.calls[i := s.calls[i].(read := Below(1))];
    } else {
      LaterReadsKeepZero(s, i, n - 1);
      ReadKeepsZero(Exec(s, LaterReads(i, n - 1)), i, n - 1);
      ExecStep(s, LaterReads(i, n - 1), ReadBit(i, n - 1));
      assert s.calls[i := s.calls[i].(read := Below(n - 1))][i := s.calls[i].(read := Below(n))]
          == s.calls[i := s.calls[i].(read := Below(n))];
    }
  }

  /** Call 0 begins and sees its first probe as zero. */
  lemma StaleStart(existing: set<Username>, user: Username)
    ensures Exec(Init(existing), [Begin(user)] + [ReadBit(0, 0)]) ==
            Init(existing).(calls := [Reading(user, {}, Below(1), true)])
  {
    ExecStep(Init(existing), [], Begin(user));
    assert [] + [Begin(user)] == [Begin(user)];
    ExecStep(Init(existing), [Begin(user)], ReadBit(0, 0));
    var s := Do(Init(existing), Begin(user));
    assert ReturnedCalls(Init(existing).calls) == {};
    assert s == Init(existing).(calls := [Reading(user, {}, {}, false)]);
    assert Below(1) == {} + {0};
    assert [Reading(user, {}, {}, false)][0 := Reading(user, {}, Below(1), true)] ==
           [Reading(user, {}, Below(1), true)];
  }

  /** Call 1 asks the filter, which has no bit of the name. */
  lemma StaleCheck(existing: set<Username>, s: State, user: Username)
    requires s == Init(existing).(calls := [Reading(user, {}, Below(1), true)])
    ensures Exec(s, CheckSchedule(1, user)) == s.(calls := s.calls + [Creating(user, {})])
  {
    assert Positions(user)[0] in PositionSet(user);
    assert ReturnedCalls(s.calls) == {};
    CheckDecides(s, user);
  }

  lemma StaleCreate(existing: set<Username>, s: State, first: Call, user: Username)
    requires s == Init(existing).(calls := [first, Creating(user, {})])
    ensures Exec(s, CreateSchedule(1, true)) ==
            State(PositionSet(user), [first, Finished(user, {}, Registered)], existing + {user}, existing, {user})
  {
    CreateAdds(s, 1, true);
    var t := Exec(s, CreateSchedule(1, true));
    assert t.calls == [first, Finished(user, {}, Registered)];
    assert t.bits == {} + PositionSet(user) == PositionSet(user);
    assert t.returned == {} + {user} == {user};
  }

  /** Call 1 registers the name from start to finish. */
  lemma StaleMiddle(existing: set<Username>, s: State, user: Username)
    requires s == Init(existing).(calls := [Reading(user, {}, Below(1), true)])
    ensures Exec(s, CheckSchedule(1, user) + CreateSchedule(1, true)) ==
            State(PositionSet(user), [s.calls[0], Finished(user, {}, Registered)],
                  existing + {user}, existing, {user})
  {
    StaleCheck(existing, s, user);
    assert s.calls + [Creating(user, {})] == [s.calls[0], Creating(user, {})];
    StaleCreate(existing, Init(existing).(calls := [s.calls[0], Creating(user, {})]), s.calls[0], user);
    ExecThen(s, CheckSchedule(1, user), CreateSchedule(1, true));
  }

  /** Call 0 reads the remaining probes and decides. */
  lemma StaleEnd(s: State, user: Username)
    requires |s.calls| == 2 && s.calls[0] == Reading(user, {}, Below(1), true)
    ensures Exec(s, LaterReads(0, NUM_HASHES) + [Decide(0)]) == s.(calls := [Creating(user, {}), s.calls[1]])
  {
    LaterReadsKeepZero(s, 0, NUM_HASHES);
    AllBelow(user);
    ExecStep(s, LaterReads(0, NUM_HASHES), Decide(0));
    var c := s.calls[0].(read := Below(NUM_HASHES));
    assert s.calls[0 := c][0 := Creating(user, {})] == [Creating(user, {}), s.calls[1]];
  }

  /** Call 0 reads one probe, call 1 registers the same name from start to finish, and call 0 reads the rest. */
  function StaleSchedule(user: Username): seq<Label> {
    [Begin(user)] + [ReadBit(0, 0)]
    + (CheckSchedule(1, user) + CreateSchedule(1, true))
    + (LaterReads(0, NUM_HASHES) + [Decide(0)])
  }

  /** For every name: a run in which the filter denies a name whose registration has already returned. */
  lemma StaleNegativeIsReachable(existing: set<Username>, user: Username)
    ensures var s := Exec(Init(existing), StaleSchedule(user));
            && s.calls == [Creating(user, {}), Finished(user, {}, Registered)]
            && user in s.accounts && user in s.returned
  {
    var first := [Begin(user)] + [ReadBit(0, 0)];
    var middle := CheckSchedule(1, user) + CreateSchedule(1, true);
    StaleStart(existing, user);
    StaleMiddle(existing, Exec(Init(existing), first), user);
    ExecThen(Init(existing), first, middle);
    StaleEnd(Exec(Init(existing), first + middle), user);
    ExecThen(Init(existing), first + middle, LaterReads(0, NUM_HASHES) + [Decide(0)]);
  }
}
