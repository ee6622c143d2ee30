/**
  References for the hashes and positions of module BloomHash: other ways to compute them, from the published
  constants, and known values.
 */
module HashReference {
  import opened Common
  import opened BloomHash

  // ---------------------------------------------------------------- hashes

  /**
    Reference: FNV-1a on octets replaces only the low octet of the hash before multiplying by the 32-bit prime, from
    the 32-bit offset basis (draft-eastlake-fnv, sections 2 and 5).
   */
  function Fnv1aOctets(octets: seq<CodeUnit>): (h: int)
    requires forall i :: 0 <= i < |octets| ==> octets[i] < 256
    ensures 0 <= h < 4294967296
  {
    if octets == [] then 2166136261 else
    var h := Fnv1aOctets(octets[..|octets| - 1]);
    ((h - h % 256 + Xor(h % 256, octets[|octets| - 1])) * 16777619) % 4294967296
  }

  /** The same on 16-bit units, which replace the low half of the hash. */
  function Fnv1aUnits(units: seq<CodeUnit>): (h: int)
    ensures 0 <= h < 4294967296
  {
    if units == [] then 2166136261 else
    var h := Fnv1aUnits(units[..|units| - 1]);
    ((h - h % 65536 + Xor(h % 65536, units[|units| - 1])) * 16777619) % 4294967296
  }

  /** Reference for DJB2 on 16-bit units: 33 times the hash, with its low half replaced. */
  function Djb2Units(units: seq<CodeUnit>): int {
    if units == [] then 5381 else
    var h := Djb2Units(units[..|units| - 1]) * 33 % 4294967296;
    h - h % 65536 + Xor(h % 65536, units[|units| - 1])
  }

  lemma LowByte(a: nat, b: nat)
    requires b < 256
    ensures Xor(a, b) == a - a % 256 + Xor(a % 256, b)
  {
    assert Power2(8) == 256;
    XorTouchesLowBits(a, b, 8);
  }

  lemma LowHalf(a: nat, b: nat)
    requires b < 65536
    ensures Xor(a, b) == a - a % 65536 + Xor(a % 65536, b)
  {
    assert Power2(8) == 256;
    assert Power2(16) == 65536;
    XorTouchesLowBits(a, b, 16);
  }

  /** On strings of octets the loop is 32-bit FNV-1a. */
  lemma {:induction false} AgreesWithFnv1a(value: seq<CodeUnit>)
    requires forall i :: 0 <= i < |value| ==> value[i] < 256
    ensures Fnv1aHash(value) == Fnv1aOctets(value)
  {
    if value == [] {
    } else {
      AgreesWithFnv1a(value[..|value| - 1]);
      LowByte(Fnv1aHash(value[..|value| - 1]), value[|value| - 1]);
    }
  }

  /** On all strings the loop is FNV-1a on 16-bit units. */
  lemma {:induction false} AgreesWithFnv1aUnits(value: seq<CodeUnit>)
    ensures Fnv1aHash(value) == Fnv1aUnits(value)
  {
    if value == [] {
    } else {
      AgreesWithFnv1aUnits(value[..|value| - 1]);
      LowHalf(Fnv1aHash(value[..|value| - 1]), value[|value| - 1]);
    }
  }

  lemma {:induction false} AgreesWithDjb2Units(value: seq<CodeUnit>)
    ensures Djb2Hash(value) == Djb2Units(value)
  {
    if value == [] {
    } else {
      AgreesWithDjb2Units(value[..|value| - 1]);
      LowHalf(Djb2Hash(value[..|value| - 1]) * 33 % TWO_32, value[|value| - 1]);
    }
  }

  // ------------------------------------------------------------- positions

  /** Reference for the stride: the second hash, made odd. */
  function OddStep(value: seq<CodeUnit>): nat {
    var h := Djb2Units(value) % 1000000;
    if h % 2 == 1 then h else h + 1
  }

  /** `i` steps around the filter. */
  function Around(start: nat, step: nat, i: nat): nat {
    if i == 0 then start else (Around(start, step, i - 1) + step) % 1000000
  }

  /** Reference for probe `i`: the first hash, and from there one step after another. */
  function Slot(value: seq<CodeUnit>, i: nat): nat {
    Around(Fnv1aUnits(value) % 1000000, OddStep(value), i)
  }

  lemma StepAround(h: int, step: int, i: nat)
    ensures ((h + i * step) % 1000000 + step) % 1000000 == (h + (i + 1) * step) % 1000000
  {
    var a := h + i * step;
    assert h + (i + 1) * step == a + step;
    var q := (a % 1000000 + step) / 1000000;
    assert a + step == 1000000 * (a / 1000000) + (a % 1000000 + step);
    assert a + step == 1000000 * (a / 1000000 + q) + (a % 1000000 + step) % 1000000;
  }

  lemma {:induction false} AroundIs(start: nat, step: nat, i: nat)
    requires start < 1000000
    ensures Around(start, step, i) == (start + i * step) % 1000000
  {
    if i == 0 {
    } else {
      AroundIs(start, step, i - 1);
      StepAround(start, step, i - 1);
    }
  }

  lemma ProbeIsSlot(value: seq<CodeUnit>, i: nat)
    ensures Probe(Fnv1aHash(value) % BIT_SIZE, Stride(value), i) == Slot(value, i)
  {
    AgreesWithFnv1aUnits(value);
    AgreesWithDjb2Units(value);
    AroundIs(Fnv1aHash(value) % BIT_SIZE, Stride(value), i);
  }

  /** For every string: seven positions, the first hash and six steps on, by the references for both hashes. */
  lemma PositionsAreSlots(value: seq<CodeUnit>)
    ensures |Positions(value)| == 7
    ensures forall i :: 0 <= i < 7 ==> Positions(value)[i] == Slot(value, i)
    ensures forall p :: p in PositionSet(value) <==> exists i :: 0 <= i < 7 && p == Slot(value, i)
  {
    forall i | 0 <= i < 7
      ensures Positions(value)[i] == Slot(value, i)
    {
      ProbeIsSlot(value, i);
    }
    forall i | 0 <= i < 7
      ensures Slot(value, i) in PositionSet(value)
    {
      assert Positions(value)[i] in Positions(value);
    }
  }

  lemma SetOfPositions(value: seq<CodeUnit>)
    ensures forall bits: set<nat> ::
              PositionSet(value) <= bits <==> forall k :: 0 <= k < NUM_HASHES ==> Positions(value)[k] in bits
  {
    assert forall k :: 0 <= k < NUM_HASHES ==> Positions(value)[k] in PositionSet(value);
    forall bits: set<nat> | forall k :: 0 <= k < NUM_HASHES ==> Positions(value)[k] in bits
      ensures PositionSet(value) <= bits
    {
    }
  }

  /** Reference for the bits of a name. */
  function SlotSet(value: seq<CodeUnit>): set<nat> {
    set i | 0 <= i < 7 :: Slot(value, i)
  }

  lemma SlotSetIs(value: seq<CodeUnit>)
    ensures PositionSet(value) == SlotSet(value)
  {
    PositionsAreSlots(value);
  }

  // ---------------------------------------------------- known values

  /** By its bits, `x` is the exclusive or of `a` and `b`. */
  ghost predicate XorIs(a: nat, b: nat, x: nat) {
    forall k: nat :: Bit(x, k) == if Bit(a, k) == Bit(b, k) then 0 else 1
  }

  lemma {:induction false} XorIsXor(a: nat, b: nat, x: nat)
    requires XorIs(a, b, x)
    ensures Xor(a, b) == x
    decreases a + b + x
  {
    assert Bit(x, 0) == x % 2 && Bit(a, 0) == a % 2 && Bit(b, 0) == b % 2;
    if a == 0 && b == 0 && x == 0 {
    } else {
      forall k: nat
        ensures Bit(x / 2, k) == if Bit(a / 2, k) == Bit(b / 2, k) then 0 else 1
      {
        assert Bit(x, k + 1) == if Bit(a, k + 1) == Bit(b, k + 1) then 0 else 1;
      }
      XorIsXor(a / 2, b / 2, x / 2);
    }
  }

  /** The next bit of an exclusive or. */
  lemma XorBit(a: nat, b: nat, x: nat, a': nat, b': nat, x': nat)
    requires XorIs(a, b, x) && a' / 2 == a && b' / 2 == b && x' / 2 == x
    requires x' % 2 == if a' % 2 == b' % 2 then 0 else 1
    ensures XorIs(a', b', x')
  {
    forall k: nat
      ensures Bit(x', k) == if Bit(a', k) == Bit(b', k) then 0 else 1
    {
      assert 0 < k ==> Bit(x', k) == Bit(x, k - 1) && Bit(a', k) == Bit(a, k - 1) && Bit(b', k) == Bit(b, k - 1);
    }
  }

  lemma XorNothing()
    ensures XorIs(0, 0, 0)
  {
    forall k: nat
      ensures Bit(0, k) == 0
    {
      NoBits(k);
    }
  }

  lemma {:induction false} NoBits(k: nat)
    ensures Bit(0, k) == 0
  {
    if k == 0 {
    } else {
      NoBits(k - 1);
    }
  }

  /** One step of a hash: before, the low octet, that octet mixed, the quotient of the product, and after. */
  datatype Step = Step(hash: nat, low: nat, mixed: nat, q: nat, next: nat) {
    /** For DJB2, whose product comes before the mixing. */
    function Scaled(): int {
      next - mixed + low
    }
  }

  ghost predicate FnvStepOk(s: Step, c: nat) {
    && c < 256 && s.hash % 256 == s.low && XorIs(s.low, c, s.mixed)
    && (s.hash - s.low + s.mixed) * 16777619 == 4294967296 * s.q + s.next && s.next < 4294967296
  }

  ghost predicate DjbStepOk(s: Step, c: nat) {
    && c < 256 && XorIs(s.low, c, s.mixed)
    && s.hash * 33 == 4294967296 * s.q + s.Scaled() && 0 <= s.Scaled() < 4294967296 && s.Scaled() % 256 == s.low
  }

  predicate Linked(start: nat, steps: seq<Step>) {
    && (0 < |steps| ==> steps[0].hash == start)
    && forall k :: 0 < k < |steps| ==> steps[k].hash == steps[k - 1].next
  }

  lemma {:induction false} FnvTrace(name: seq<CodeUnit>, steps: seq<Step>)
    requires |steps| == |name| && Linked(2166136261, steps)
    requires forall k :: 0 <= k < |name| ==> FnvStepOk(steps[k], name[k])
    ensures 0 < |name| ==> Fnv1aHash(name) == steps[|name| - 1].next
  {
    if name == [] {
    } else {
      var n := |name| - 1;
      var s := steps[n];
      FnvTrace(name[..n], steps[..n]);
      assert FnvStepOk(s, name[n]);
      LowByte(s.hash, name[n]);
      XorIsXor(s.low, name[n], s.mixed);
      RemainderIs(Xor(s.hash, name[n]) * FNV_PRIME, TWO_32, s.q, s.next);
    }
  }

  lemma {:induction false} DjbTrace(name: seq<CodeUnit>, steps: seq<Step>)
    requires |steps| == |name| && Linked(5381, steps)
    requires forall k :: 0 <= k < |name| ==> DjbStepOk(steps[k], name[k])
    ensures 0 < |name| ==> Djb2Hash(name) == steps[|name| - 1].next
  {
    if name == [] {
    } else {
      var n := |name| - 1;
      var s := steps[n];
      DjbTrace(name[..n], steps[..n]);
      assert DjbStepOk(s, name[n]);
      RemainderIs(s.hash * 33, TWO_32, s.q, s.Scaled());
      LowByte(s.Scaled(), name[n]);
      XorIsXor(s.low, name[n], s.mixed);
    }
  }

  lemma Xor3With101()
    ensures XorIs(3, 101, 102)
  {
    XorNothing();
    XorBit(0, 0, 0, 0, 1, 1);
    XorBit(0, 1, 1, 0, 3, 3);
    XorBit(0, 3, 3, 0, 6, 6);
    XorBit(0, 6, 6, 0, 12, 12);
    XorBit(0, 12, 12, 0, 25, 25);
    XorBit(0, 25, 25, 1, 50, 51);
    XorBit(1, 50, 51, 3, 101, 102);
  }

  lemma Xor16With115()
    ensures XorIs(16, 115, 99)
  {
    XorNothing();
    XorBit(0, 0, 0, 0, 1, 1);
    XorBit(0, 1, 1, 0, 3, 3);
    XorBit(0, 3, 3, 1, 7, 6);
    XorBit(1, 7, 6, 2, 14, 12);
    XorBit(2, 14, 12, 4, 28, 24);
    XorBit(4, 28, 24, 8, 57, 49);
    XorBit(8, 57, 49, 16, 115, 99);
  }

  lemma Xor38With114()
    ensures XorIs(38, 114, 84)
  {
    XorNothing();
    XorBit(0, 0, 0, 0, 1, 1);
    XorBit(0, 1, 1, 1, 3, 2);
    XorBit(1, 3, 2, 2, 7, 5);
    XorBit(2, 7, 5, 4, 14, 10);
    XorBit(4, 14, 10, 9, 28, 21);
    XorBit(9, 28, 21, 19, 57, 42);
    XorBit(19, 57, 42, 38, 114, 84);
  }

  lemma Xor44With97()
    ensures XorIs(44, 97, 77)
  {
    XorNothing();
    XorBit(0, 0, 0, 0, 1, 1);
    XorBit(0, 1, 1, 1, 3, 2);
    XorBit(1, 3, 2, 2, 6, 4);
    XorBit(2, 6, 4, 5, 12, 9);
    XorBit(5, 12, 9, 11, 24, 19);
    XorBit(11, 24, 19, 22, 48, 38);
    XorBit(22, 48, 38, 44, 97, 77);
  }

  lemma Xor55With108()
    ensures XorIs(55, 108, 91)
  {
    XorNothing();
    XorBit(0, 0, 0, 0, 1, 1);
    XorBit(0, 1, 1, 1, 3, 2);
    XorBit(1, 3, 2, 3, 6, 5);
    XorBit(3, 6, 5, 6, 13, 11);
    XorBit(6, 13, 11, 13, 27, 22);
    XorBit(13, 27, 22, 27, 54, 45);
    XorBit(27, 54, 45, 55, 108, 91);
  }

  lemma Xor68With97()
    ensures XorIs(68, 97, 37)
  {
    XorNothing();
    XorBit(0, 0, 0, 1, 1, 0);
    XorBit(1, 1, 0, 2, 3, 1);
    XorBit(2, 3, 1, 4, 6, 2);
    XorBit(4, 6, 2, 8, 12, 4);
    XorBit(8, 12, 4, 17, 24, 9);
    XorBit(17, 24, 9, 34, 48, 18);
    XorBit(34, 48, 18, 68, 97, 37);
  }

  lemma Xor165With97()
    ensures XorIs(165, 97, 196)
  {
    XorNothing();
    XorBit(0, 0, 0, 1, 0, 1);
    XorBit(1, 0, 1, 2, 1, 3);
    XorBit(2, 1, 3, 5, 3, 6);
    XorBit(5, 3, 6, 10, 6, 12);
    XorBit(10, 6, 12, 20, 12, 24);
    XorBit(20, 12, 24, 41, 24, 49);
    XorBit(41, 24, 49, 82, 48, 98);
    XorBit(82, 48, 98, 165, 97, 196);
  }

  lemma Xor165With117()
    ensures XorIs(165, 117, 208)
  {
    XorNothing();
    XorBit(0, 0, 0, 1, 0, 1);
    XorBit(1, 0, 1, 2, 1, 3);
    XorBit(2, 1, 3, 5, 3, 6);
    XorBit(5, 3, 6, 10, 7, 13);
    XorBit(10, 7, 13, 20, 14, 26);
    XorBit(20, 14, 26, 41, 29, 52);
    XorBit(41, 29, 52, 82, 58, 104);
    XorBit(82, 58, 104, 165, 117, 208);
  }

  lemma Xor197With97()
    ensures XorIs(197, 97, 164)
  {
    XorNothing();
    XorBit(0, 0, 0, 1, 0, 1);
    XorBit(1, 0, 1, 3, 1, 2);
    XorBit(3, 1, 2, 6, 3, 5);
    XorBit(6, 3, 5, 12, 6, 10);
    XorBit(12, 6, 10, 24, 12, 20);
    XorBit(24, 12, 20, 49, 24, 41);
    XorBit(49, 24, 41, 98, 48, 82);
    XorBit(98, 48, 82, 197, 97, 164);
  }

  lemma Xor197With108()
    ensures XorIs(197, 108, 169)
  {
    XorNothing();
    XorBit(0, 0, 0, 1, 0, 1);
    XorBit(1, 0, 1, 3, 1, 2);
    XorBit(3, 1, 2, 6, 3, 5);
    XorBit(6, 3, 5, 12, 6, 10);
    XorBit(12, 6, 10, 24, 13, 21);
    XorBit(24, 13, 21, 49, 27, 42);
    XorBit(49, 27, 42, 98, 54, 84);
    XorBit(98, 54, 84, 197, 108, 169);
  }

  lemma Xor197With117()
    ensures XorIs(197, 117, 176)
  {
    XorNothing();
    XorBit(0, 0, 0, 1, 0, 1);
    XorBit(1, 0, 1, 3, 1, 2);
    XorBit(3, 1, 2, 6, 3, 5);
    XorBit(6, 3, 5, 12, 7, 11);
    XorBit(12, 7, 11, 24, 14, 22);
    XorBit(24, 14, 22, 49, 29, 44);
    XorBit(49, 29, 44, 98, 58, 88);
    XorBit(98, 58, 88, 197, 117, 176);
  }

  lemma Xor208With115()
    ensures XorIs(208, 115, 163)
  {
    XorNothing();
    XorBit(0, 0, 0, 1, 0, 1);
    XorBit(1, 0, 1, 3, 1, 2);
    XorBit(3, 1, 2, 6, 3, 5);
    XorBit(6, 3, 5, 13, 7, 10);
    XorBit(13, 7, 10, 26, 14, 20);
    XorBit(26, 14, 20, 52, 28, 40);
    XorBit(52, 28, 40, 104, 57, 81);
    XorBit(104, 57, 81, 208, 115, 163);
  }

  lemma Xor217With101()
    ensures XorIs(217, 101, 188)
  {
    XorNothing();
    XorBit(0, 0, 0, 1, 0, 1);
    XorBit(1, 0, 1, 3, 1, 2);
    XorBit(3, 1, 2, 6, 3, 5);
    XorBit(6, 3, 5, 13, 6, 11);
    XorBit(13, 6, 11, 27, 12, 23);
    XorBit(27, 12, 23, 54, 25, 47);
    XorBit(54, 25, 47, 108, 50, 94);
    XorBit(108, 50, 94, 217, 101, 188);
  }

  lemma Xor244With114()
    ensures XorIs(244, 114, 134)
  {
    XorNothing();
    XorBit(0, 0, 0, 1, 0, 1);
    XorBit(1, 0, 1, 3, 1, 2);
    XorBit(3, 1, 2, 7, 3, 4);
    XorBit(7, 3, 4, 15, 7, 8);
    XorBit(15, 7, 8, 30, 14, 16);
    XorBit(30, 14, 16, 61, 28, 33);
    XorBit(61, 28, 33, 122, 57, 67);
    XorBit(122, 57, 67, 244, 114, 134);
  }

  lemma FnvStep1()
    ensures FnvStepOk(Step(2166136261, 197, 164, 8461672, 3826002220), 97)
  {
    Xor197With97();
  }

  lemma DjbStep1()
    ensures DjbStepOk(Step(5381, 165, 196, 0, 177604), 97)
  {
    Xor165With97();
  }

  lemma FnvStep2()
    ensures FnvStepOk(Step(3826002220, 44, 77, 14945680, 1277494327), 97)
  {
    Xor44With97();
  }

  lemma FnvStep3()
    ensures FnvStepOk(Step(1277494327, 55, 91, 4990332, 960879425), 108)
  {
    Xor55With108();
  }

  lemma DjbStep2()
    ensures DjbStepOk(Step(177604, 68, 37, 0, 5860901), 97)
  {
    Xor68With97();
  }

  lemma DjbStep3()
    ensures DjbStepOk(Step(5860901, 197, 169, 0, 193409705), 108)
  {
    Xor197With108();
  }

  lemma FnvStep4()
    ensures FnvStepOk(Step(2166136261, 197, 176, 8461672, 4027333648), 117)
  {
    Xor197With117();
  }

  lemma FnvStep5()
    ensures FnvStepOk(Step(4027333648, 16, 99, 15732150, 1178800089), 115)
  {
    Xor16With115();
  }

  lemma FnvStep6()
    ensures FnvStepOk(Step(1178800089, 217, 188, 4604798, 1469170932), 101)
  {
    Xor217With101();
  }

  lemma FnvStep7()
    ensures FnvStepOk(Step(1469170932, 244, 134, 5739086, 1618501362), 114)
  {
    Xor244With114();
  }

  lemma DjbStep4()
    ensures DjbStepOk(Step(5381, 165, 208, 0, 177616), 117)
  {
    Xor165With117();
  }

  lemma DjbStep5()
    ensures DjbStepOk(Step(177616, 208, 163, 0, 5861283), 115)
  {
    Xor208With115();
  }

  lemma DjbStep6()
    ensures DjbStepOk(Step(5861283, 3, 102, 0, 193422438), 101)
  {
    Xor3With101();
  }

  lemma DjbStep7()
    ensures DjbStepOk(Step(193422438, 38, 84, 1, 2087973204), 114)
  {
    Xor38With114();
  }

  lemma FnvOfA(name: seq<CodeUnit>)
    requires |name| == 1 && name[0] == 97
    ensures Fnv1aHash(name) == 3826002220
  {
    var steps := [Step(2166136261, 197, 164, 8461672, 3826002220)];
    FnvStep1();
    FnvTrace(name, steps);
  }

  lemma DjbOfA(name: seq<CodeUnit>)
    requires |name| == 1 && name[0] == 97
    ensures Djb2Hash(name) == 177604
  {
    var steps := [Step(5381, 165, 196, 0, 177604)];
    DjbStep1();
    DjbTrace(name, steps);
  }

  lemma FnvOfAal(name: seq<CodeUnit>)
    requires |name| == 3 && name[0] == 97 && name[1] == 97 && name[2] == 108
    ensures Fnv1aHash(name) == 960879425
  {
    var steps := [Step(2166136261, 197, 164, 8461672, 3826002220),
                  Step(3826002220, 44, 77, 14945680, 1277494327),
                  Step(1277494327, 55, 91, 4990332, 960879425)];
    FnvStep1();
    FnvStep2();
    FnvStep3();
    FnvTrace(name, steps);
  }

  lemma DjbOfAal(name: seq<CodeUnit>)
    requires |name| == 3 && name[0] == 97 && name[1] == 97 && name[2] == 108
    ensures Djb2Hash(name) == 193409705
  {
    var steps := [Step(5381, 165, 196, 0, 177604),
                  Step(177604, 68, 37, 0, 5860901),
                  Step(5860901, 197, 169, 0, 193409705)];
    DjbStep1();
    DjbStep2();
    DjbStep3();
    DjbTrace(name, steps);
  }

  lemma FnvOfUser(name: seq<CodeUnit>)
    requires |name| == 4 && name[0] == 117 && name[1] == 115 && name[2] == 101 && name[3] == 114
    ensures Fnv1aHash(name) == 1618501362
  {
    var steps := [Step(2166136261, 197, 176, 8461672, 4027333648),
                  Step(4027333648, 16, 99, 15732150, 1178800089),
                  Step(1178800089, 217, 188, 4604798, 1469170932),
                  Step(1469170932, 244, 134, 5739086, 1618501362)];
    FnvStep4();
    FnvStep5();
    FnvStep6();
    FnvStep7();
    FnvTrace(name, steps);
  }

  lemma DjbOfUser(name: seq<CodeUnit>)
    requires |name| == 4 && name[0] == 117 && name[1] == 115 && name[2] == 101 && name[3] == 114
    ensures Djb2Hash(name) == 2087973204
  {
    var steps := [Step(5381, 165, 208, 0, 177616),
                  Step(177616, 208, 163, 0, 5861283),
                  Step(5861283, 3, 102, 0, 193422438),
                  Step(193422438, 38, 84, 1, 2087973204)];
    DjbStep4();
    DjbStep5();
    DjbStep6();
    DjbStep7();
    DjbTrace(name, steps);
  }

  /** The published values of 32-bit FNV-1a for the empty string and "a", and those of DJB2. */
  lemma HashesOfShortStrings(name: seq<CodeUnit>)
    requires name == [] || (|name| == 1 && name[0] == 97)
    ensures Fnv1aHash(name) == if name == [] then 2166136261 else 3826002220
    ensures Djb2Hash(name) == if name == [] then 5381 else 177604
  {
    if name == [] {
    } else {
      FnvOfA(name);
      DjbOfA(name);
    }
  }

  /** Both hashes of "user", where all products of the first and the last of the second exceed 2^32. */
  lemma HashesOfUser(name: seq<CodeUnit>)
    requires |name| == 4 && name[0] == 117 && name[1] == 115 && name[2] == 101 && name[3] == 114
    ensures Fnv1aHash(name) == 1618501362 && Djb2Hash(name) == 2087973204
  {
    FnvOfUser(name);
    DjbOfUser(name);
  }

  /** One position, by the quotient of its sum. */
  lemma SumIs(name: seq<CodeUnit>, i: nat, h1: nat, h2: nat, q: nat, p: nat)
    requires i < 7 && Fnv1aHash(name) % BIT_SIZE == h1 && Stride(name) == h2
    requires h1 + i * h2 == 1000000 * q + p && p < 1000000
    ensures Positions(name)[i] == p
  {
    RemainderIs(h1 + i * h2, BIT_SIZE, q, p);
  }

  /** The bits of "aal", whose second hash leaves the odd remainder 409705. */
  lemma PositionsOfAal(name: seq<CodeUnit>)
    requires |name| == 3 && name[0] == 97 && name[1] == 97 && name[2] == 108
    ensures Positions(name) == [879425, 289130, 698835, 108540, 518245, 927950, 337655]
  {
    FnvOfAal(name);
    DjbOfAal(name);
    SumIs(name, 0, 879425, 409705, 0, 879425);
    SumIs(name, 1, 879425, 409705, 1, 289130);
    SumIs(name, 2, 879425, 409705, 1, 698835);
    SumIs(name, 3, 879425, 409705, 2, 108540);
    SumIs(name, 4, 879425, 409705, 2, 518245);
    SumIs(name, 5, 879425, 409705, 2, 927950);
    SumIs(name, 6, 879425, 409705, 3, 337655);
  }

  /** The bits of "user", whose second hash leaves the even remainder 973204. */
  lemma PositionsOfUser(name: seq<CodeUnit>)
    requires |name| == 4 && name[0] == 117 && name[1] == 115 && name[2] == 101 && name[3] == 114
    ensures Positions(name) == [501362, 474567, 447772, 420977, 394182, 367387, 340592]
  {
    FnvOfUser(name);
    DjbOfUser(name);
    SumIs(name, 0, 501362, 973205, 0, 501362);
    SumIs(name, 1, 501362, 973205, 1, 474567);
    SumIs(name, 2, 501362, 973205, 2, 447772);
    SumIs(name, 3, 501362, 973205, 3, 420977);
    SumIs(name, 4, 501362, 973205, 4, 394182);
    SumIs(name, 5, 501362, 973205, 5, 367387);
    SumIs(name, 6, 501362, 973205, 6, 340592);
  }

  /** A username for which the comment fails: the stride of "aal" is 409705, and its probes miss a slot. */
  lemma StrideOfAalMissesSlots(name: seq<CodeUnit>)
    requires |name| == 3 && name[0] == 97 && name[1] == 97 && name[2] == 108
    ensures Stride(name) == 409705
    ensures !CoversAllSlots(Fnv1aHash(name) % BIT_SIZE, Stride(name))
  {
    DjbOfAal(name);
    StrideMissesSlots(Fnv1aHash(name) % BIT_SIZE, Stride(name));
  }

  lemma StrideMissesSlots(h1: int, h2: int)
    requires h2 == 409705
    ensures !CoversAllSlots(h1, h2)
  {
    OddStrideCoversIffNotMultipleOf5(h1, h2);
  }
}
