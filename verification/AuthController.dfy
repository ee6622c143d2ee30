/**
  The registration endpoint (src/auth/auth.controller.ts:49-68) with the identity provider's part of it
  (src/auth/services/keycloak-identity.service.ts:93-98) as methods, whose every call, with whatever other
  registrations and the provider do at its awaits, is a run of the step system in module Registration.
 */
module AuthController {
  import opened BloomHash
  import opened BloomFilter
  import opened HashReference
  import opened Registration

  /** What happens elsewhere before each probe read, account creation, role assignment, and each bit write. */
  datatype Script = Script(checks: seq<seq<Label>>, create: seq<Label>, assign: seq<Label>, bits: seq<seq<Label>>)

  /** The labels move other calls only. */
  predicate Elsewhere(labels: seq<Label>, i: nat) {
    forall k :: 0 <= k < |labels| ==> labels[k].Begin? || labels[k].Provision? || labels[k].call != i
  }

  predicate ValidScript(script: Script, i: nat) {
    && |script.checks| == |script.bits| == NUM_HASHES
    && (forall j :: 0 <= j < NUM_HASHES ==> Elsewhere(script.checks[j], i) && Elsewhere(script.bits[j], i))
    && Elsewhere(script.create, i) && Elsewhere(script.assign, i)
  }

  predicate Silent(script: Script) {
    && |script.checks| == |script.bits| == NUM_HASHES
    && (forall j :: 0 <= j < NUM_HASHES ==> script.checks[j] == [] && script.bits[j] == [])
    && script.create == [] && script.assign == []
  }

  lemma {:induction false} ElsewhereKeepsCall(s: State, labels: seq<Label>, i: nat)
    requires i < |s.calls| && Elsewhere(labels, i)
    ensures i < |Exec(s, labels).calls| && Exec(s, labels).calls[i] == s.calls[i]
  {
    if labels == [] {
    } else {
      ElsewhereKeepsCall(s, labels[..|labels| - 1], i);
    }
  }

  // ---------------------------------------------------- a call as a run

  /** Call `i` has read its first `n` probes. */
  function Checked(s: State, i: nat, others: seq<seq<Label>>, n: nat): State
    requires n <= |others|
  {
    if n == 0 then s else Do(Exec(Checked(s, i, others, n - 1), others[n - 1]), ReadBit(i, n - 1))
  }

  /** Call `i` has written its first `n` bits. */
  function Added(s: State, i: nat, others: seq<seq<Label>>, n: nat): State
    requires n <= |others|
  {
    if n == 0 then s else Do(Exec(Added(s, i, others, n - 1), others[n - 1]), WriteBit(i, n - 1))
  }

  /** The provider's part: create the account, then assign its role; either may throw. */
  function Identified(s: State, i: nat, script: Script, answer: Answer): State {
    var created := Do(Exec(s, script.create), Create(i, !answer.Refuses?));
    if answer.Refuses? then created
    else Do(Exec(created, script.assign), if answer.Accepts? then Assign(i) else Throw(i))
  }

  /** The account has been asked for, if the filter said no. */
  function Asked(s: State, i: nat, script: Script, answer: Answer): State
    requires ValidScript(script, i)
  {
    var decided := Do(Checked(s, i, script.checks, NUM_HASHES), Decide(i));
    if i < |decided.calls| && decided.calls[i].Creating? then Identified(decided, i, script, answer) else decided
  }

  /** The whole call, from its beginning. */
  function Called(s: State, i: nat, script: Script, answer: Answer): State
    requires ValidScript(script, i)
  {
    var asked := Asked(s, i, script, answer);
    if i < |asked.calls| && asked.calls[i].Adding? then
      Do(Added(asked, i, script.bits, NUM_HASHES), Return(i))
    else asked
  }

  lemma {:induction false} ReadsAreRun(s: State, i: nat, others: seq<seq<Label>>, n: nat) returns (trace: seq<Label>)
    requires n <= |others|
    ensures Exec(s, trace) == Checked(s, i, others, n)
  {
    if n == 0 {
      trace := [];
    } else {
      trace := ReadsAreRun(s, i, others, n - 1);
      ExecThen(s, trace, others[n - 1]);
      ExecStep(s, trace + others[n - 1], ReadBit(i, n - 1));
      trace := trace + others[n - 1] + [ReadBit(i, n - 1)];
    }
  }

  lemma {:induction false} WritesAreRun(s: State, i: nat, others: seq<seq<Label>>, n: nat) returns (trace: seq<Label>)
    requires n <= |others|
    ensures Exec(s, trace) == Added(s, i, others, n)
  {
    if n == 0 {
      trace := [];
    } else {
      trace := WritesAreRun(s, i, others, n - 1);
      ExecThen(s, trace, others[n - 1]);
      ExecStep(s, trace + others[n - 1], WriteBit(i, n - 1));
      trace := trace + others[n - 1] + [WriteBit(i, n - 1)];
    }
  }

  lemma IdentifiedIsRun(s: State, i: nat, script: Script, answer: Answer) returns (trace: seq<Label>)
    ensures Exec(s, trace) == Identified(s, i, script, answer)
  {
    ExecStep(s, script.create, Create(i, !answer.Refuses?));
    trace := script.create + [Create(i, !answer.Refuses?)];
    if !answer.Refuses? {
      var l := if answer.Accepts? then Assign(i) else Throw(i);
      ExecThen(s, trace, script.assign);
      ExecStep(s, trace + script.assign, l);
      trace := trace + script.assign + [l];
    }
  }

  lemma AskedIsRun(s: State, i: nat, script: Script, answer: Answer) returns (trace: seq<Label>)
    requires ValidScript(script, i)
    ensures Exec(s, trace) == Asked(s, i, script, answer)
  {
    trace := ReadsAreRun(s, i, script.checks, NUM_HASHES);
    ExecStep(s, trace, Decide(i));
    trace := trace + [Decide(i)];
    var decided := Exec(s, trace);
    if i < |decided.calls| && decided.calls[i].Creating? {
      var more := IdentifiedIsRun(decided, i, script, answer);
      ExecThen(s, trace, more);
      trace := trace + more;
    }
  }

  /** So every theorem on runs holds of every call of the endpoint. */
  lemma RegisterIsRun(s: State, i: nat, script: Script, answer: Answer) returns (trace: seq<Label>)
    requires ValidScript(script, i)
    ensures Exec(s, trace) == Called(s, i, script, answer)
  {
    trace := AskedIsRun(s, i, script, answer);
    var asked := Exec(s, trace);
    if i < |asked.calls| && asked.calls[i].Adding? {
      var more := WritesAreRun(asked, i, script.bits, NUM_HASHES);
      ExecThen(s, trace, more);
      ExecStep(s, trace + more, Return(i));
      trace := trace + more + [Return(i)];
    }
  }

  // ---------------------------------------------- without interference

  lemma {:induction false} SilentReads(s: State, i: nat, others: seq<seq<Label>>, n: nat)
    requires n <= |others| && forall j :: 0 <= j < n ==> others[j] == []
    ensures Checked(s, i, others, n) == Exec(s, Reads(i, n))
  {
    if n == 0 {
    } else {
      SilentReads(s, i, others, n - 1);
      ExecStep(s, Reads(i, n - 1), ReadBit(i, n - 1));
    }
  }

  lemma {:induction false} SilentWrites(s: State, i: nat, others: seq<seq<Label>>, n: nat)
    requires n <= |others| && forall j :: 0 <= j < n ==> others[j] == []
    ensures Added(s, i, others, n) == Exec(s, Writes(i, n))
  {
    if n == 0 {
    } else {
      SilentWrites(s, i, others, n - 1);
      ExecStep(s, Writes(i, n - 1), WriteBit(i, n - 1));
    }
  }

  /** Where the provider's part leaves a call. */
  function Identity(user: Username, earlier: set<nat>, answer: Answer): Call {
    match answer
    case Refuses => Finished(user, earlier, IdentityRefused)
    case Accepts => Adding(user, earlier, {})
    case CreatesButThrows => Broken(user, earlier, {}, false)
  }

  lemma SilentIdentity(s: State, i: nat, script: Script, answer: Answer)
    requires Silent(script) && i < |s.calls| && s.calls[i].Creating?
    ensures var t := Identified(s, i, script, answer);
            && |t.calls| == |s.calls| && t.bits == s.bits
            && t.calls[i] == Identity(s.calls[i].user, s.calls[i].earlier, answer)
  {
  }

  /** A call that meets no other is answered as the filter it finds dictates. */
  lemma SilentAsk(s: State, i: nat, script: Script, answer: Answer)
    requires ValidScript(script, i) && Silent(script)
    requires i < |s.calls| && s.calls[i].Reading? && s.calls[i].read == {} && !s.calls[i].sawZero
    ensures var t := Asked(s, i, script, answer);
            var (user, earlier) := (s.calls[i].user, s.calls[i].earlier);
            && |t.calls| == |s.calls| && t.bits == s.bits
            && t.calls[i] == if PositionSet(user) <= s.bits then Finished(user, earlier, Conflict)
                             else Identity(user, earlier, answer)
  {
    SilentReads(s, i, script.checks, NUM_HASHES);
    ReadsSeeZeros(s, i, NUM_HASHES);
    AllBelow(s.calls[i].user);
    var decided := Do(Checked(s, i, script.checks, NUM_HASHES), Decide(i));
    if decided.calls[i].Creating? {
      SilentIdentity(decided, i, script, answer);
    }
  }

  lemma SilentAdd(s: State, i: nat, script: Script)
    requires ValidScript(script, i) && Silent(script)
    requires i < |s.calls| && s.calls[i].Adding? && s.calls[i].written == {}
    ensures var t := Do(Added(s, i, script.bits, NUM_HASHES), Return(i));
            && |t.calls| == |s.calls| && t.bits == s.bits + PositionSet(s.calls[i].user)
            && t.calls[i] == Finished(s.calls[i].user, s.calls[i].earlier, Registered)
  {
    SilentWrites(s, i, script.bits, NUM_HASHES);
    WritesSetBits(s, i, NUM_HASHES);
    AllBelow(s.calls[i].user);
  }

  /** The endpoint has returned or thrown. */
  predicate Over(c: Call) {
    c.Finished? || c.Broken?
  }

  function OutcomeOf(c: Call): Outcome
    requires Over(c)
  {
    if c.Broken? then BrokenOff else c.outcome
  }

  /** A call that meets no other ends as the filter it finds dictates, and adds exactly its own positions. */
  lemma SilentCall(s: State, i: nat, script: Script, answer: Answer)
    requires ValidScript(script, i) && Silent(script)
    requires i < |s.calls| && s.calls[i].Reading? && s.calls[i].read == {} && !s.calls[i].sawZero
    ensures var t := Called(s, i, script, answer);
            && i < |t.calls| && Over(t.calls[i])
            && (OutcomeOf(t.calls[i]), t.bits) == RegisterEffect(s.bits, s.calls[i].user, answer)
  {
    SilentAsk(s, i, script, answer);
    var asked := Asked(s, i, script, answer);
    if asked.calls[i].Adding? {
      SilentAdd(asked, i, script);
    }
  }

  /** Reference for a call that meets no other: what it answers, and what it adds to filter and provider. */
  ghost predicate Settles(bits: set<nat>, user: Username, answer: Answer, outcome: Outcome,
                          after: set<nat>, accounts: set<Username>, accountsAfter: set<Username>) {
    if SlotSet(user) <= bits then outcome.Conflict? && after == bits && accountsAfter == accounts
    else match answer
      case Refuses => outcome.IdentityRefused? && after == bits && accountsAfter == accounts
      case Accepts => outcome.Registered? && after == bits + SlotSet(user) && accountsAfter == accounts + {user}
      case CreatesButThrows => outcome.BrokenOff? && after == bits && accountsAfter == accounts + {user}
  }

  lemma {:induction false} ReadsKeepAccounts(s: State, i: nat, others: seq<seq<Label>>, n: nat)
    requires n <= |others| && forall j :: 0 <= j < n ==> others[j] == []
    ensures Checked(s, i, others, n).accounts == s.accounts
  {
    if n == 0 {
    } else {
      ReadsKeepAccounts(s, i, others, n - 1);
    }
  }

  lemma {:induction false} WritesKeepAccounts(s: State, i: nat, others: seq<seq<Label>>, n: nat)
    requires n <= |others| && forall j :: 0 <= j < n ==> others[j] == []
    ensures Added(s, i, others, n).accounts == s.accounts
  {
    if n == 0 {
    } else {
      WritesKeepAccounts(s, i, others, n - 1);
    }
  }

  lemma SilentAccounts(s: State, i: nat, script: Script, answer: Answer)
    requires ValidScript(script, i) && Silent(script)
    requires i < |s.calls| && s.calls[i].Reading? && s.calls[i].read == {} && !s.calls[i].sawZero
    ensures var user := s.calls[i].user;
            Called(s, i, script, answer).accounts ==
            if PositionSet(user) <= s.bits || answer.Refuses? then s.accounts else s.accounts + {user}
  {
    ReadsKeepAccounts(s, i, script.checks, NUM_HASHES);
    SilentReads(s, i, script.checks, NUM_HASHES);
    ReadsSeeZeros(s, i, NUM_HASHES);
    AllBelow(s.calls[i].user);
    WritesKeepAccounts(Asked(s, i, script, answer), i, script.bits, NUM_HASHES);
  }

  lemma SilentSettles(s: State, i: nat, script: Script, answer: Answer)
    requires ValidScript(script, i) && Silent(script)
    requires i < |s.calls| && s.calls[i].Reading? && s.calls[i].read == {} && !s.calls[i].sawZero
    ensures var t := Called(s, i, script, answer);
            && i < |t.calls| && Over(t.calls[i])
            && Settles(s.bits, s.calls[i].user, answer, OutcomeOf(t.calls[i]), t.bits, s.accounts, t.accounts)
  {
    SilentCall(s, i, script, answer);
    SilentAccounts(s, i, script, answer);
    SlotSetIs(s.calls[i].user);
  }

  // ------------------------------------------------------------ the class

  class AuthController {
    const bloomFilter: BloomFilterService
    /** Registrations in progress or finished, on this and every other replica. */
    var calls: seq<Call>
    /** Names that the identity provider holds, and those of them that it holds for other reasons than a call. */
    var accounts: set<Username>
    var outside: set<Username>
    var returned: set<Username>

    constructor (bloomFilter: BloomFilterService, existing: set<Username>)
      ensures this.bloomFilter == bloomFilter
      ensures calls == [] && accounts == outside == existing && returned == {}
    {
      this.bloomFilter := bloomFilter;
      calls, accounts, outside, returned := [], existing, existing, {};
    }

    function View(): State
      reads this, bloomFilter, bloomFilter.redis
    {
      State(bloomFilter.Bits(), calls, accounts, outside, returned)
    }

    /** What other registrations and the provider do during an await. */
    method Interfere(labels: seq<Label>)
      modifies this, bloomFilter.redis`bitmaps
      ensures View() == Exec(old(View()), labels)
    {
      var s := Exec(View(), labels);
      bloomFilter.redis.bitmaps := bloomFilter.redis.bitmaps[BLOOM_KEY := s.bits];
      calls, accounts, outside, returned := s.calls, s.accounts, s.outside, s.returned;
    }

    /** One GETBIT; the record of the call remembers whether any bit was 0. */
    method ReadProbe(i: nat, j: nat)
      requires i < |calls| && calls[i].Reading? && j < NUM_HASHES && j !in calls[i].read
      modifies this
      ensures View() == Do(old(View()), ReadBit(i, j)) && i < |calls|
      ensures var (c, zero) := (old(calls[i]), Positions(old(calls[i].user))[j] !in bloomFilter.Bits());
              calls[i] == Reading(c.user, c.earlier, c.read + {j}, c.sawZero || zero)
    {
      var c := calls[i];
      var bit := bloomFilter.Probe(c.user, j);
      calls := calls[i := Reading(c.user, c.earlier, c.read + {j}, c.sawZero || !bit)];
    }

    /** One SETBIT. */
    method WriteProbe(i: nat, j: nat)
      requires i < |calls| && calls[i].Adding? && j < NUM_HASHES && j !in calls[i].written
      modifies this, bloomFilter.redis`bitmaps
      ensures View() == Do(old(View()), WriteBit(i, j)) && i < |calls|
      ensures var c := old(calls[i]); calls[i] == Adding(c.user, c.earlier, c.written + {j})
    {
      var c := calls[i];
      bloomFilter.Mark(c.user, j);
      calls := calls[i := Adding(c.user, c.earlier, c.written + {j})];
    }

    /** `await this.bloomFilter.mightExist(username)`, probe by probe. */
    method MightExist(i: nat, others: seq<seq<Label>>) returns (mightExist: bool)
      requires i < |calls| && calls[i].Reading? && calls[i].read == {} && !calls[i].sawZero
      requires |others| == NUM_HASHES && forall j :: 0 <= j < NUM_HASHES ==> Elsewhere(others[j], i)
      modifies this, bloomFilter.redis`bitmaps
      ensures View() == Checked(old(View()), i, others, NUM_HASHES)
      ensures i < |calls| && calls[i].Reading? && calls[i].read == ALL_PROBES && mightExist == !calls[i].sawZero
      ensures calls[i].user == old(calls[i].user) && calls[i].earlier == old(calls[i].earlier)
    {
      for j := 0 to NUM_HASHES
        invariant View() == Checked(old(View()), i, others, j)
        invariant i < |calls| && calls[i].Reading? && calls[i].read == Below(j)
        invariant calls[i].user == old(calls[i].user) && calls[i].earlier == old(calls[i].earlier)
      {
        ElsewhereKeepsCall(View(), others[j], i);
        Interfere(others[j]);
        NotBelow(j);
        ReadProbe(i, j);
      }
      AllBelow(calls[i].user);
      mightExist := !calls[i].sawZero;
    }

    /** `await this.bloomFilter.add(username)`, bit by bit. */
    method Add(i: nat, others: seq<seq<Label>>)
      requires i < |calls| && calls[i].Adding? && calls[i].written == {}
      requires |others| == NUM_HASHES && forall j :: 0 <= j < NUM_HASHES ==> Elsewhere(others[j], i)
      modifies this, bloomFilter.redis`bitmaps
      ensures View() == Added(old(View()), i, others, NUM_HASHES)
      ensures i < |calls| && calls[i] == Adding(old(calls[i].user), old(calls[i].earlier), ALL_PROBES)
    {
      for j := 0 to NUM_HASHES
        invariant View() == Added(old(View()), i, others, j)
        invariant i < |calls| && calls[i] == Adding(old(calls[i].user), old(calls[i].earlier), Below(j))
      {
        ElsewhereKeepsCall(View(), others[j], i);
        Interfere(others[j]);
        NotBelow(j);
        WriteProbe(i, j);
      }
      AllBelow(calls[i].user);
    }

    /** `await this.identity.register(dto)`: two requests to the provider, either of which may throw. */
    method Identify(i: nat, answer: Answer, script: Script)
      requires ValidScript(script, i) && i < |calls| && calls[i].Creating?
      modifies this, bloomFilter.redis`bitmaps
      ensures View() == Identified(old(View()), i, script, answer)
      ensures i < |calls| && calls[i] == Identity(old(calls[i].user), old(calls[i].earlier), answer)
    {
      var (user, earlier) := (calls[i].user, calls[i].earlier);
      ElsewhereKeepsCall(View(), script.create, i);
      Interfere(script.create);
      if answer.Refuses? {
        calls := calls[i := Finished(user, earlier, IdentityRefused)];
        return;
      }
      calls, accounts := calls[i := Assigning(user, earlier)], accounts + {user};
      ElsewhereKeepsCall(View(), script.assign, i);
      Interfere(script.assign);
      calls := calls[i := if answer.Accepts? then Adding(user, earlier, {}) else Broken(user, earlier, {}, false)];
    }

    /** Up to the identity provider's answer, if it is asked at all. */
    method Ask(i: nat, answer: Answer, script: Script)
      requires ValidScript(script, i)
      requires i < |calls| && calls[i].Reading? && calls[i].read == {} && !calls[i].sawZero
      modifies this, bloomFilter.redis`bitmaps
      ensures View() == Asked(old(View()), i, script, answer)
      ensures i < |calls|
      ensures var (user, earlier) := (old(calls[i].user), old(calls[i].earlier));
              calls[i] == Finished(user, earlier, Conflict) || calls[i] == Identity(user, earlier, answer)
    {
      var mightExist := MightExist(i, script.checks);
      if mightExist {
        calls := calls[i := Finished(calls[i].user, calls[i].earlier, Conflict)];
        return;
      }
      calls := calls[i := Creating(calls[i].user, calls[i].earlier)];
      Identify(i, answer, script);
    }

    /** The name is added to the filter, and the endpoint returns. */
    method Complete(i: nat, script: Script)
      requires ValidScript(script, i) && i < |calls| && calls[i].Adding? && calls[i].written == {}
      modifies this, bloomFilter.redis`bitmaps
      ensures View() == Do(Added(old(View()), i, script.bits, NUM_HASHES), Return(i)) && i < |calls|
      ensures calls[i] == Finished(old(calls[i].user), old(calls[i].earlier), Registered)
    {
      var (user, earlier) := (calls[i].user, calls[i].earlier);
      Add(i, script.bits);
      calls, returned := calls[i := Finished(user, earlier, Registered)], returned + {user};
    }

    /** The filter is asked first, the account created next, and its name added to the filter last. */
    method Register(username: Username, answer: Answer, script: Script) returns (outcome: Outcome)
      requires ValidScript(script, |calls|)
      modifies this, bloomFilter.redis`bitmaps
      ensures View() == Called(Do(old(View()), Begin(username)), old(|calls|), script, answer)
      ensures old(|calls|) < |calls|
      ensures calls[old(|calls|)] == if outcome.BrokenOff? then Broken(username, old(ReturnedCalls(calls)), {}, false)
                                     else Finished(username, old(ReturnedCalls(calls)), outcome)
      ensures Silent(script) ==>
                (outcome, bloomFilter.Bits()) == RegisterEffect(old(bloomFilter.Bits()), username, answer)
      ensures Silent(script) ==>
                Settles(old(bloomFilter.Bits()), username, answer, outcome, bloomFilter.Bits(), old(accounts), accounts)
    {
      var i := |calls|;
      calls := calls + [Reading(username, ReturnedCalls(calls), {}, false)];
      ghost var begun := View();
      if Silent(script) {
        SilentCall(begun, i, script, answer);
        SilentSettles(begun, i, script, answer);
      }
      Ask(i, answer, script);
      if calls[i].Adding? {
        Complete(i, script);
      }
      outcome := OutcomeOf(calls[i]);
    }
  }
}
