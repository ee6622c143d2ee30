/**
  The hashes and probe positions of the username filter (src/auth/bloom-filter.service.ts:32-61).

  Strings are sequences of 16-bit code units.  The hash loops work on JavaScript numbers: `^` and `Math.imul`
  yield signed 32-bit results and `>>> 0` makes them unsigned (ECMA-262 sections 7.1.6, 7.1.7 and 21.3.2.19).
 */
module BloomHash {
  import opened Common

  type CodeUnit = x: int | 0 <= x < 0x1_0000

  const TWO_32: int := 0x1_0000_0000
  const BIT_SIZE: int := 1_000_000
  const NUM_HASHES: nat := 7
  const FNV_OFFSET: int := 0x811c9dc5
  const FNV_PRIME: int := 0x01000193
  const DJB_START: int := 5381

  // ---------------------------------------------------- 32-bit arithmetic

  function ToUint32(x: int): int {
    x % TWO_32
  }

  function ToInt32(x: int): int {
    if x % TWO_32 < 0x8000_0000 then x % TWO_32 else x % TWO_32 - TWO_32
  }

  /** Exclusive or, bit by bit. */
  function Xor(a: nat, b: nat): nat
    decreases a + b
  {
    if a == 0 && b == 0 then 0
    else 2 * Xor(a / 2, b / 2) + (if a % 2 == b % 2 then 0 else 1)
  }

  /** The operator `^`. */
  function BitXor(a: int, b: int): int {
    ToInt32(Xor(ToUint32(a), ToUint32(b)))
  }

  /** `Math.imul` */
  function Imul(a: int, b: int): int {
    ToInt32(ToUint32(a) * ToUint32(b))
  }

  lemma {:induction false} XorBound(a: nat, b: nat, bits: nat)
    requires a < Power2(bits) && b < Power2(bits)
    ensures Xor(a, b) < Power2(bits)
  {
    if bits == 0 || (a == 0 && b == 0) {
    } else {
      XorBound(a / 2, b / 2, bits - 1);
    }
  }

  /** Bit `k` of a number. */
  function Bit(a: nat, k: nat): nat {
    if k == 0 then a % 2 else Bit(a / 2, k - 1)
  }

  /** A bit of the exclusive or is set exactly when it is set in one of the two. */
  lemma {:induction false} XorIsBitwise(a: nat, b: nat, k: nat)
    ensures Bit(Xor(a, b), k) == if Bit(a, k) == Bit(b, k) then 0 else 1
  {
    if k == 0 {
    } else {
      XorIsBitwise(a / 2, b / 2, k - 1);
      assert Xor(a, b) / 2 == Xor(a / 2, b / 2);
    }
  }

  lemma Xor32(a: nat, b: nat)
    requires a < TWO_32 && b < TWO_32
    ensures Xor(a, b) < TWO_32
  {
    assert Power2(32) == TWO_32 by {
      assert Power2(8) == 256;
      assert Power2(16) == 65536;
      assert Power2(24) == 16777216;
    }
    XorBound(a, b, 32);
  }

  lemma UnsignedOfSigned(x: int)
    ensures ToUint32(ToInt32(x)) == ToUint32(x)
  {
  }

  lemma UnsignedXor(a: int, b: int)
    ensures ToUint32(BitXor(a, b)) == Xor(ToUint32(a), ToUint32(b))
  {
    Xor32(ToUint32(a), ToUint32(b));
    UnsignedOfSigned(Xor(ToUint32(a), ToUint32(b)));
  }

  lemma UnsignedProduct(a: int, b: int)
    ensures ToUint32(Imul(a, b)) == (ToUint32(a) * ToUint32(b)) % TWO_32
  {
    UnsignedOfSigned(ToUint32(a) * ToUint32(b));
  }

  // ---------------------------------------------------------------- hashes

  /** The FNV-1a recurrence over integers modulo 2^32. */
  function Fnv1aHash(value: seq<CodeUnit>): (h: int)
    ensures 0 <= h < TWO_32
  {
    if value == [] then FNV_OFFSET
    else (Xor(Fnv1aHash(value[..|value| - 1]), value[|value| - 1]) * FNV_PRIME) % TWO_32
  }

  /** The DJB2 (xor) recurrence over integers modulo 2^32. */
  function Djb2Hash(value: seq<CodeUnit>): (h: int)
    ensures 0 <= h < TWO_32
  {
    if value == [] then DJB_START else
    var scaled := (Djb2Hash(value[..|value| - 1]) * 33) % TWO_32;
    Xor32(scaled, value[|value| - 1]);
    Xor(scaled, value[|value| - 1])
  }

  lemma InRange(x: int)
    requires 0 <= x < TWO_32
    ensures ToUint32(x) == x
  {
  }

  lemma MultiplyUnsigned(x: int, u: int, y: int)
    requires ToUint32(x) == u && 0 <= y < TWO_32
    ensures ToUint32(Imul(x, y)) == (u * y) % TWO_32
  {
    UnsignedProduct(x, y);
    InRange(y);
  }

  lemma XorUnsigned(x: int, u: int, c: int)
    requires ToUint32(x) == u && 0 <= c < TWO_32
    ensures ToUint32(BitXor(x, c)) == Xor(u, c)
  {
    UnsignedXor(x, c);
    InRange(c);
  }

  lemma FnvStep(hash: int, c: CodeUnit, x: int)
    requires 0 <= hash < TWO_32 && x == BitXor(hash, c)
    ensures ToUint32(Imul(x, FNV_PRIME)) == (Xor(hash, c) * FNV_PRIME) % TWO_32
  {
    InRange(hash);
    XorUnsigned(hash, hash, c);
    MultiplyUnsigned(x, Xor(hash, c), FNV_PRIME);
  }

  lemma DjbStep(hash: int, c: CodeUnit, x: int)
    requires 0 <= hash < TWO_32 && x == Imul(hash, 33)
    ensures ToUint32(BitXor(x, c)) == Xor((hash * 33) % TWO_32, c)
  {
    InRange(hash);
    MultiplyUnsigned(hash, hash, 33);
    XorUnsigned(x, (hash * 33) % TWO_32, c);
  }

  /** The loop over code units, in JavaScript's signed and unsigned numbers. */
  method Fnv1a(value: seq<CodeUnit>) returns (hash: int)
    ensures hash == Fnv1aHash(value)
  {
    hash := 0x811c9dc5;
    for i := 0 to |value|
      invariant hash == Fnv1aHash(value[..i])
    {
      assert value[..i + 1][..i] == value[..i];
      FnvStep(hash, value[i], BitXor(hash, value[i]));
      hash := BitXor(hash, value[i]);
      hash := ToUint32(Imul(hash, 0x01000193));
    }
    assert value[..|value|] == value;
  }

  method Djb2(value: seq<CodeUnit>) returns (hash: int)
    ensures hash == Djb2Hash(value)
  {
    hash := 5381;
    for i := 0 to |value|
      invariant hash == Djb2Hash(value[..i])
    {
      assert value[..i + 1][..i] == value[..i];
      DjbStep(hash, value[i], Imul(hash, 33));
      hash := ToUint32(BitXor(Imul(hash, 33), value[i]));
    }
    assert value[..|value|] == value;
  }

  lemma {:induction false} XorTouchesLowBits(a: nat, b: nat, bits: nat)
    requires b < Power2(bits)
    ensures Power2(bits) > 0
    ensures Xor(a, b) == a - a % Power2(bits) + Xor(a % Power2(bits), b)
  {
    if bits == 0 {
      XorZero(a);
    } else {
      var m := Power2(bits - 1);
      XorTouchesLowBits(a / 2, b / 2, bits - 1);
      HalveModulo(a, m);
    }
  }

  lemma {:induction false} XorZero(a: nat)
    ensures Xor(a, 0) == a
  {
    if a == 0 {
    } else {
      XorZero(a / 2);
    }
  }

  lemma HalveModulo(a: nat, m: nat)
    requires 0 < m
    ensures a % (2 * m) == 2 * (a / 2 % m) + a % 2
    ensures a % (2 * m) / 2 == a / 2 % m && a % (2 * m) % 2 == a % 2
  {
    var q := a / 2 / m;
    assert a / 2 == m * q + a / 2 % m;
    assert a == (2 * m) * q + (2 * (a / 2 % m) + a % 2);
    RemainderIs(a, 2 * m, q, 2 * (a / 2 % m) + a % 2);
  }

  lemma RemainderIs(a: int, m: int, q: int, r: int)
    requires 0 <= r < m && a == m * q + r
    ensures a % m == r
  {
    var d := a / m - q;
    assert m * d == r - a % m by {
      assert a == m * (a / m) + a % m;
    }
    assert -m < m * d < m;
    assert d == 0;
  }

  // ------------------------------------------------------------- positions

  /** DJB2 reduced below the filter size and forced odd. */
  function Stride(value: seq<CodeUnit>): (h2: int)
    ensures 0 < h2 < BIT_SIZE && h2 % 2 == 1
  {
    var raw := Djb2Hash(value) % BIT_SIZE;
    if raw % 2 == 0 then raw + 1 else raw
  }

  function Probe(h1: int, h2: int, i: nat): int {
    (h1 + i * h2) % BIT_SIZE
  }

  function Positions(value: seq<CodeUnit>): (ps: seq<nat>)
    ensures |ps| == NUM_HASHES
  {
    seq(NUM_HASHES, i requires 0 <= i => Probe(Fnv1aHash(value) % BIT_SIZE, Stride(value), i))
  }

  function PositionSet(value: seq<CodeUnit>): set<nat> {
    set p | p in Positions(value)
  }

  /** `positions` itself: both hashes, the odd stride, and seven sums. */
  method ComputePositions(value: seq<CodeUnit>) returns (positions: seq<nat>)
    ensures positions == Positions(value)
  {
    var fnv := Fnv1a(value);
    var djb := Djb2(value);
    var h1 := fnv % BIT_SIZE;
    var raw := djb % BIT_SIZE;
    var h2 := if raw % 2 == 0 then raw + 1 else raw;
    positions := [];
    for i := 0 to NUM_HASHES
      invariant positions == Positions(value)[..i]
    {
      positions := positions + [(h1 + i * h2) % BIT_SIZE];
    }
  }

  /** Two probes of one odd stride fewer than 64 steps apart never meet, because 64 divides the filter size. */
  lemma ProbesDiffer(h1: int, h2: int, i: nat, d: nat)
    requires h2 % 2 == 1 && 0 < d < NUM_HASHES
    ensures Probe(h1, h2, i) != Probe(h1, h2, i + d)
  {
    var a, b := h1 + i * h2, h1 + (i + d) * h2;
    assert b - a == d * h2 by {
      assert (i + d) * h2 == i * h2 + d * h2;
    }
    if a % BIT_SIZE == b % BIT_SIZE {
      var k := b / BIT_SIZE - a / BIT_SIZE;
      assert d * h2 == 64 * (15625 * k);
      OddMultiple(h2, d, 15625 * k);
      assert false;
    }
  }

  lemma OddMultiple(h: int, d: nat, k: int)
    requires h % 2 == 1 && 0 < d < NUM_HASHES
    ensures d * h != 64 * k
  {
    match d
    case 1 => assert d * h == h;
    case 2 => assert d * h == 2 * h;
    case 3 => assert d * h == 3 * h;
    case 4 => assert d * h == 4 * h;
    case 5 => assert d * h == 5 * h;
    case 6 => assert d * h == 6 * h;
  }

  /** For every string: seven positions inside the filter, pairwise distinct, computed exactly within 2^53. */
  lemma PositionsAreDistinct(value: seq<CodeUnit>)
    ensures forall i :: 0 <= i < NUM_HASHES ==> 0 <= Positions(value)[i] < BIT_SIZE
    ensures forall i, j :: 0 <= i < j < NUM_HASHES ==> Positions(value)[i] != Positions(value)[j]
    ensures forall i :: 0 <= i < NUM_HASHES ==>
              0 <= Fnv1aHash(value) % BIT_SIZE + i * Stride(value) < 0x20_0000_0000_0000
  {
    var h1, h2 := Fnv1aHash(value) % BIT_SIZE, Stride(value);
    forall i, j | 0 <= i < j < NUM_HASHES
      ensures Positions(value)[i] != Positions(value)[j]
    {
      ProbesDiffer(h1, h2, i, j - i);
    }
    forall i | 0 <= i < NUM_HASHES
      ensures 0 <= h1 + i * h2 < 0x20_0000_0000_0000
    {
      assert 0 <= i * h2 <= 6 * BIT_SIZE;
    }
  }

  // ------------------------------------------- does the stride cover all slots?

  ghost predicate CoversAllSlots(h1: int, h2: int) {
    forall slot :: 0 <= slot < BIT_SIZE ==> Hits(h1, h2, slot)
  }

  ghost predicate Hits(h1: int, h2: int, slot: int) {
    exists i: nat :: Probe(h1, h2, i) == slot
  }

  /** Newton's step: an inverse modulo n becomes an inverse modulo n * n. */
  lemma LiftInverse(h: int, x: int, n: int, k: int) returns (x': int, k': int)
    requires h * x == 1 + n * k
    ensures h * x' == 1 + (n * n) * k'
  {
    x', k' := x * (1 - n * k), -(k * k);
    assert h * x' == (h * x) * (1 - n * k);
    assert (1 + n * k) * (1 - n * k) == 1 - (n * k) * (n * k);
    assert (n * k) * (n * k) == (n * n) * (k * k);
  }

  lemma LastDigitInverse(h: int) returns (x: int, k: int)
    requires h % 2 == 1 && h % 5 != 0
    ensures h * x == 1 + 10 * k
  {
    var q, d := h / 10, h % 10;
    assert h == 10 * q + d;
    assert d == 1 || d == 3 || d == 7 || d == 9;
    x := if d == 1 then 1 else if d == 3 then 7 else if d == 7 then 3 else 9;
    k := x * q + (d * x - 1) / 10;
    DistributeOver(q, d, x);
  }

  lemma DistributeOver(q: int, d: int, x: int)
    ensures (10 * q + d) * x == 10 * (x * q) + d * x
  {
  }

  /** A number ending in 1, 3, 7 or 9 has an inverse modulo the filter size. */
  lemma InverseExists(h: int) returns (x: int, k: int)
    requires h % 2 == 1 && h % 5 != 0
    ensures h * x == 1 + BIT_SIZE * k
  {
    var x0, k0 := LastDigitInverse(h);
    var x1, k1 := LiftInverse(h, x0, 10, k0);
    var x2, k2 := LiftInverse(h, x1, 100, k1);
    var x3, k3 := LiftInverse(h, x2, 10_000, k2);
    x, k := x3, 100 * k3;
  }

  lemma EverySlotIsHit(h1: int, h2: int, slot: int)
    requires h2 % 2 == 1 && h2 % 5 != 0 && 0 <= slot < BIT_SIZE
    ensures Hits(h1, h2, slot)
  {
    var x, k := InverseExists(h2);
    var d := slot - h1;
    var i: nat := (d * x) % BIT_SIZE;
    var q := (d * x) / BIT_SIZE;
    assert d * x == BIT_SIZE * q + i;
    var z := d * k - q * h2;
    assert h1 + i * h2 == slot + BIT_SIZE * z by {
      assert i * h2 == (d * x) * h2 - (BIT_SIZE * q) * h2;
      assert (d * x) * h2 == d * (h2 * x) == d * (1 + BIT_SIZE * k);
      assert d * (1 + BIT_SIZE * k) == d + BIT_SIZE * (d * k);
      assert (BIT_SIZE * q) * h2 == BIT_SIZE * (q * h2);
    }
    RemainderIs(h1 + i * h2, BIT_SIZE, z, slot);
    assert Probe(h1, h2, i) == slot;
  }

  lemma NeighbourIsMissed(h1: int, h2: int)
    requires h2 % 5 == 0
    ensures !Hits(h1, h2, (h1 + 1) % BIT_SIZE)
  {
    var t := h2 / 5;
    forall i: nat
      ensures Probe(h1, h2, i) != (h1 + 1) % BIT_SIZE
    {
      assert i * h2 == 5 * (i * t) by {
        assert h2 == 5 * t;
      }
    }
  }

  /**
    Forcing the stride odd does not make double hashing cover all slots, as the source says it does: an odd
    stride covers every slot exactly when it is not a multiple of 5 as well.
   */
  lemma OddStrideCoversIffNotMultipleOf5(h1: int, h2: int)
    requires h2 % 2 == 1
    ensures CoversAllSlots(h1, h2) <==> h2 % 5 != 0
  {
    if h2 % 5 == 0 {
      NeighbourIsMissed(h1, h2);
      assert !Hits(h1, h2, (h1 + 1) % BIT_SIZE);
    } else {
      forall slot | 0 <= slot < BIT_SIZE
        ensures Hits(h1, h2, slot)
      {
        EverySlotIsHit(h1, h2, slot);
      }
    }
  }
}
