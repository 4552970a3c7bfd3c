/** 256-bit targets: four 64-bit limbs, least significant first. */
module Target {
  import opened Hashing
  import opened Pow
  import opened Digits
  import opened Words

  type Uint256 = l: seq<U64> | |l| == 4 witness [0, 0, 0, 0]

  const TWO128: nat := 0x1_0000_0000_0000_0000_0000_0000_0000_0000
  const TWO192: nat := TWO64 * TWO128
  const TWO256: nat := TWO128 * TWO128

  function Value(u: Uint256): nat {
    Num(u, TWO64)
  }

  lemma ValueIs(u: Uint256)
    ensures Value(u) == u[0] + TWO64 * u[1] + TWO128 * u[2] + TWO192 * u[3]
    ensures Value(u) < TWO256
  {
    assert u[1..][1..] == u[2..] && u[2..][1..] == u[3..] && u[3..][1..] == [];
    assert Num(u[3..], TWO64) == u[3] + TWO64 * Num([], TWO64);
    assert Num(u[2..], TWO64) == u[2] + TWO64 * Num(u[3..], TWO64);
    assert Num(u[1..], TWO64) == u[1] + TWO64 * Num(u[2..], TWO64);
  }

  // ---- shift ----

  /** What a limb keeps and what it passes on when shifted up by `bits`. */
  function Kept(limb: U64, bits: nat): U64 {
    limb * Pow2(bits) % TWO64
  }

  function Passed(limb: U64, bits: nat): U64
    requires bits < 64
  {
    if bits == 0 then 0 else Quotient(limb, Pow2(64 - bits))
  }

  function Quotient(limb: U64, q: nat): (r: U64)
    requires q >= 1
    ensures r <= limb
  {
    DivAtMost(limb, q);
    limb / q
  }

  lemma DivAtMost(x: nat, q: nat)
    requires q >= 1
    ensures 0 <= x / q <= x
  {
    MulMono(1, q, x / q);
  }

  lemma SplitLimb(limb: U64, bits: nat)
    requires bits < 64
    ensures limb * Pow2(bits) == Kept(limb, bits) + TWO64 * Passed(limb, bits)
  {
    var p, q := Pow2(bits), Pow2(64 - bits);
    Pow2Add(bits, 64 - bits);
    WordSizes();
    if bits > 0 {
      DivScaled(limb, p, q);
    }
  }

  lemma DivScaled(x: nat, p: nat, q: nat)
    requires p >= 1 && q >= 1
    ensures x * p / (p * q) == x / q
  {
    var d, r := x / q, x % q;
    assert x == q * d + r;
    assert x * p == r * p + (p * q) * d by { Digits.Distribute(p, r, d, q); }
    MulMono(r + 1, q, p);
    assert r * p < p * q;
    DigitAndRest(r * p, d, p * q);
  }

  /** No addition overflows: what arrives from below fits under what the limb kept. */
  lemma AddFits(kept: U64, passed: U64, bits: nat)
    requires 0 < bits < 64
    requires exists limb: U64 :: kept == Kept(limb, bits)
    requires exists limb: U64 :: passed == Passed(limb, bits)
    ensures kept + passed < TWO64
  {
    var p, q := Pow2(bits), Pow2(64 - bits);
    Pow2Add(bits, 64 - bits);
    WordSizes();
    var a: U64 :| kept == Kept(a, bits);
    var b: U64 :| passed == Passed(b, bits);
    KeptIsMultiple(a, p, q);
    QuotientBelow(b, p, q);
  }

  lemma KeptIsMultiple(a: nat, p: nat, q: nat)
    requires p >= 1 && q >= 1
    ensures a * p % (p * q) <= p * q - p
  {
    var d, r := a / q, a % q;
    assert a == q * d + r;
    assert a * p == r * p + (p * q) * d by { Digits.Distribute(p, r, d, q); }
    MulMono(r + 1, q, p);
    assert p * (r + 1) == r * p + p;
    DigitAndRest(r * p, d, p * q);
  }

  lemma QuotientBelow(b: nat, p: nat, q: nat)
    requires q >= 1 && b < p * q
    ensures b / q < p
  {
    assert q * p == p * q;
    DivBelow(b, p, q);
  }

  /** Limb `j` after source limbs `0..i` were added in. */
  function LimbAt(u: Uint256, words: nat, bits: nat, j: nat, i: nat): nat
    requires bits < 64
  {
    (if words <= j < words + i && j - words < 4 then Kept(u[j - words], bits) else 0)
    + (if words + 1 <= j < words + 1 + i && j - words - 1 < 4 then Passed(u[j - words - 1], bits) else 0)
  }

  lemma LimbFits(u: Uint256, words: nat, bits: nat, j: nat, i: nat)
    requires bits < 64
    ensures LimbAt(u, words, bits, j, i) < TWO64
  {
    hide Kept, Passed;
    if words + 1 <= j < words + 1 + i && j - words - 1 < 4 {
      if bits == 0 {
        NothingPassed(u[j - words - 1]);
      } else if j - words < 4 {
        AddFits(Kept(u[j - words], bits), Passed(u[j - words - 1], bits), bits);
      }
    }
  }

  lemma NothingPassed(limb: U64)
    ensures Passed(limb, 0) == 0
  {}

  function Shifted(u: Uint256, shift: nat): Uint256 {
    var words, bits := shift / 64, shift % 64;
    LimbFits(u, words, bits, 0, 4);
    LimbFits(u, words, bits, 1, 4);
    LimbFits(u, words, bits, 2, 4);
    LimbFits(u, words, bits, 3, 4);
    [LimbAt(u, words, bits, 0, 4), LimbAt(u, words, bits, 1, 4), LimbAt(u, words, bits, 2, 4), LimbAt(u, words, bits, 3, 4)]
  }

  /** `Uint256 << shift`: limb by limb, shift then carry. Every sum is below 2^64. */
  method Shl(u: Uint256, shift: nat) returns (r: Uint256)
    ensures r == Shifted(u, shift)
  {
    hide Kept, Passed;
    var words, bits := shift / 64, shift % 64;
    var ret: seq<U64> := [0, 0, 0, 0];
    for i := 0 to 4
      invariant |ret| == 4
      invariant forall j :: 0 <= j < 4 ==> ret[j] == LimbAt(u, words, bits, j, i)
    {
      ghost var before := ret;
      LimbFits(u, words, bits, i + words, i + 1);
      LimbFits(u, words, bits, i + words + 1, i + 1);
      if i + words < 4 {
        ret := ret[i + words := ret[i + words] + Kept(u[i], bits)];
      }
      if bits > 0 && i + words + 1 < 4 {
        ret := ret[i + words + 1 := ret[i + words + 1] + Passed(u[i], bits)];
      }
      if bits == 0 { NothingPassed(u[i]); }
    }
    r := ret;
  }

  /** The exact product, limb products split at 2^64. */
  lemma ScaledValue(u: Uint256, bits: nat)
    requires bits < 64
    ensures Value(u) * Pow2(bits) == PartsValue(PartsOf(u, bits))
  {
    hide Kept, Passed, Pow2, Value;
    ValueIs(u);
    var p := Pow2(bits);
    Expand(u[0], u[1], u[2], u[3], p);
    SplitLimb(u[0], bits);
    SplitLimb(u[1], bits);
    SplitLimb(u[2], bits);
    SplitLimb(u[3], bits);
  }

  lemma Expand(a: nat, b: nat, c: nat, d: nat, p: nat)
    ensures (a + TWO64 * b + TWO128 * c + TWO192 * d) * p == a * p + TWO64 * (b * p) + TWO128 * (c * p) + TWO192 * (d * p)
  {}

  lemma WordPowers()
    ensures Pow2(0) == 1 && Pow2(64) == TWO64 && Pow2(128) == TWO128 && Pow2(192) == TWO192 && Pow2(256) == TWO256
  {
    hide Pow2;
    assert Pow2(0) == 1 by { PowZero(); }
    WordSizes();
    Pow2Add(64, 64);
    Pow2Add(64, 128);
    Pow2Add(128, 128);
  }

  lemma PowZero()
    ensures Pow2(0) == 1
  {}

  lemma SplitShift(v: nat, shift: nat)
    ensures v * Pow2(shift) == v * Pow2(shift % 64) * Pow2(64 * (shift / 64))
  {
    hide Pow2;
    assert shift == shift % 64 + 64 * (shift / 64);
    Pow2Add(shift % 64, 64 * (shift / 64));
    assert v * (Pow2(shift % 64) * Pow2(64 * (shift / 64))) == v * Pow2(shift % 64) * Pow2(64 * (shift / 64));
  }

  /** The eight parts of a scaled value: four limbs kept, four passed on. */
  datatype Parts = Parts(k0: nat, k1: nat, k2: nat, k3: nat, c0: nat, c1: nat, c2: nat, c3: nat)

  function PartsOf(u: Uint256, bits: nat): Parts
    requires bits < 64
  {
    Parts(Kept(u[0], bits), Kept(u[1], bits), Kept(u[2], bits), Kept(u[3], bits),
          Passed(u[0], bits), Passed(u[1], bits), Passed(u[2], bits), Passed(u[3], bits))
  }

  function PartsValue(p: Parts): nat {
    p.k0 + TWO64 * (p.k1 + p.c0) + TWO128 * (p.k2 + p.c1) + TWO192 * (p.k3 + p.c2) + TWO256 * p.c3
  }

  /** The limbs left after moving up by `words`. */
  function Moved(p: Parts, words: nat): seq<nat> {
    if words == 0 then [p.k0, p.k1 + p.c0, p.k2 + p.c1, p.k3 + p.c2]
    else if words == 1 then [0, p.k0, p.k1 + p.c0, p.k2 + p.c1]
    else if words == 2 then [0, 0, p.k0, p.k1 + p.c0]
    else [0, 0, 0, p.k0]
  }

  lemma ShiftedIsMoved(u: Uint256, shift: nat)
    requires shift < 256
    ensures Shifted(u, shift) == Moved(PartsOf(u, shift % 64), shift / 64)
  {
    hide Kept, Passed;
  }

  /** What moving up by `words` loses off the top. */
  lemma MovedValue(p: Parts, words: nat, m: seq<nat>, scale: nat) returns (lost: nat)
    requires words < 4 && m == Moved(p, words)
    requires scale == if words == 0 then 1 else if words == 1 then TWO64 else if words == 2 then TWO128 else TWO192
    ensures PartsValue(p) * scale == m[0] + TWO64 * m[1] + TWO128 * m[2] + TWO192 * m[3] + TWO256 * lost
  {
    if words == 0 {
      lost := p.c3;
    } else if words == 1 {
      lost := p.k3 + p.c2 + TWO64 * p.c3;
    } else if words == 2 {
      lost := p.k2 + p.c1 + TWO64 * (p.k3 + p.c2) + TWO128 * p.c3;
    } else {
      lost := p.k1 + p.c0 + TWO64 * (p.k2 + p.c1) + TWO128 * (p.k3 + p.c2) + TWO192 * p.c3;
    }
  }

  lemma ShiftedValue(u: Uint256, shift: nat) returns (lost: nat)
    requires shift < 256
    ensures Value(u) * Pow2(shift) == Value(Shifted(u, shift)) + TWO256 * lost
  {
    hide Kept, Passed, Pow2, Value, Shifted, Moved;
    var words, bits := shift / 64, shift % 64;
    ValueIs(Shifted(u, shift));
    ScaledValue(u, bits);
    SplitShift(Value(u), shift);
    WordPowers();
    ShiftedIsMoved(u, shift);
    lost := MovedValue(PartsOf(u, bits), words, Shifted(u, shift), Pow2(64 * words));
  }

  /** For every shift, `u << shift` is the value times 2^shift modulo 2^256. */
  lemma ShlExact(u: Uint256, shift: nat)
    ensures Value(Shifted(u, shift)) == Value(u) * Pow2(shift) % TWO256
  {
    hide Shifted, Value, Pow2;
    ValueIs(Shifted(u, shift));
    if shift < 256 {
      var lost := ShiftedValue(u, shift);
      DigitAndRest(Value(Shifted(u, shift)), lost, TWO256);
    } else {
      ShiftedOut(u, shift);
      Pow2Add(shift - 256, 256);
      WordPowers();
      var m := Value(u) * Pow2(shift - 256);
      assert Value(u) * (Pow2(shift - 256) * TWO256) == 0 + TWO256 * m;
      DigitAndRest(0, m, TWO256);
    }
  }

  lemma ShiftedOut(u: Uint256, shift: nat)
    requires shift >= 256
    ensures Value(Shifted(u, shift)) == 0
  {
    hide Value;
    ValueIs(Shifted(u, shift));
  }

  // ---- compact targets ----

  function Mantissa(bits: U32): (m: nat)
    ensures m < 0x100_0000
  {
    var e := bits / 0x100_0000;
    if e <= 3 then Quotient(bits % 0x100_0000, Pow2(8 * (3 - e))) else bits % 0x100_0000
  }

  function Exponent(bits: U32): nat {
    var e := bits / 0x100_0000;
    if e <= 3 then 0 else 8 * (e - 3)
  }

  function FromCompact(bits: U32): Uint256 {
    if Mantissa(bits) > 0x7F_FFFF then [0, 0, 0, 0] else Shifted([Mantissa(bits), 0, 0, 0], Exponent(bits))
  }

  /** The decoding of every 32-bit compact target. */
  lemma CompactExact(bits: U32)
    ensures Value(FromCompact(bits))
         == if Mantissa(bits) > 0x7F_FFFF then 0 else Mantissa(bits) * Pow2(Exponent(bits)) % TWO256
  {
    hide Shifted, Value, Mantissa, Exponent;
    ValueIs([0, 0, 0, 0]);
    if Mantissa(bits) <= 0x7F_FFFF {
      var u: Uint256 := [Mantissa(bits), 0, 0, 0];
      ValueIs(u);
      ShlExact(u, Exponent(bits));
    }
  }

  method U256FromCompactTarget(bits: U32) returns (r: Uint256)
    ensures r == FromCompact(bits)
  {
    var mant, expt := Mantissa(bits), Exponent(bits);
    if mant > 0x7F_FFFF {
      return [0, 0, 0, 0];
    }
    r := Shl([mant, 0, 0, 0], expt);
  }

  // ---- order and bytes ----

  function FromLeBytes(b: Bytes32): Uint256 {
    ChunkToWords(b)
  }

  function ToLeBytes(u: Uint256): Bytes32 {
    WordsToBytes(u)
  }

  /** Limbs read from bytes denote the bytes' number. */
  lemma FromLeBytesValue(b: Bytes32)
    ensures Value(FromLeBytes(b)) == FromLe(b)
    ensures ToLeBytes(FromLeBytes(b)) == b
  {
    hide Value, FromLe, ToLe, Num, Power;
    WordsRoundTrip(b);
    ValueIs(FromLeBytes(b));
    FourWords(b);
    Unnest(FromLe(b[0..8]), FromLe(b[8..16]), FromLe(b[16..24]), FromLe(b[24..32]));
  }

  lemma FourWords(b: Bytes32)
    ensures FromLe(b) == FromLe(b[0..8]) + TWO64 * (FromLe(b[8..16]) + TWO64 * (FromLe(b[16..24]) + TWO64 * FromLe(b[24..32])))
  {
    hide FromLe, Power;
    JoinLeAt(b, 0);
    JoinLeAt(b, 8);
    JoinLeAt(b, 16);
    assert b[0..] == b && b[24..] == b[24..32];
  }

  lemma JoinLeAt(b: seq<Byte>, i: nat)
    requires i + 8 <= |b|
    ensures FromLe(b[i..]) == FromLe(b[i..i + 8]) + TWO64 * FromLe(b[i + 8..])
  {
    hide FromLe, Power;
    JoinLe(b[i..]);
    assert b[i..][..8] == b[i..i + 8] && b[i..][8..] == b[i + 8..];
  }

  lemma Unnest(a: nat, b: nat, c: nat, d: nat)
    ensures a + TWO64 * (b + TWO64 * (c + TWO64 * d)) == a + TWO64 * b + TWO128 * c + TWO192 * d
  {}

  lemma JoinLe(b: seq<Byte>)
    requires |b| >= 8
    ensures FromLe(b) == FromLe(b[..8]) + TWO64 * FromLe(b[8..])
  {
    hide Power, Num;
    JoinNum(b, 8);
    WordBytes();
  }

  lemma {:induction false} JoinNum(b: seq<nat>, k: nat)
    requires k <= |b|
    ensures Num(b, 256) == Num(b[..k], 256) + Power(256, k) * Num(b[k..], 256)
  {
    hide Num, Power;
    if k == 0 {
      assert b[0..] == b && b[..0] == [];
      NumEmpty(256);
    } else {
      JoinNum(b, k - 1);
      NumSnoc(b[..k - 1], b[k - 1], 256);
      assert b[..k] == b[..k - 1] + [b[k - 1]];
      NumHead(b, k - 1, 256);
      JoinStep(Power(256, k - 1), b[k - 1], Num(b[k..], 256));
      PowerNext(256, k - 1);
    }
  }

  lemma JoinStep(p: nat, d: nat, n: nat)
    ensures p * (d + 256 * n) == d * p + (256 * p) * n
  {}

  /** `Uint256` ordering: limbs compared from the most significant. */
  predicate Leq(a: Uint256, b: Uint256) {
    LexLeq(a, b)
  }

  /** `le_leq`: bytes compared from the most significant. */
  predicate LeLeq(a: Bytes32, b: Bytes32) {
    LexLeq(a, b)
  }

  method LeLeqLoop(a: Bytes32, b: Bytes32) returns (leq: bool)
    ensures leq <==> LeLeq(a, b)
  {
    assert a[..32] == a && b[..32] == b;
    for i := 32 downto 0
      invariant LexLeq(a, b) <==> LexLeq(a[..i], b[..i])
    {
      assert a[..i + 1][..i] == a[..i] && b[..i + 1][..i] == b[..i];
      if a[i] < b[i] {
        return true;
      }
      if a[i] > b[i] {
        return false;
      }
    }
    leq := true;
  }

  /** Byte order, limb order and the numbers agree. */
  lemma OrdersAgree(a: Bytes32, b: Bytes32)
    ensures LeLeq(a, b) <==> FromLe(a) <= FromLe(b)
    ensures LeLeq(a, b) <==> Leq(FromLeBytes(a), FromLeBytes(b))
    ensures Leq(FromLeBytes(a), FromLeBytes(b)) <==> Value(FromLeBytes(a)) <= Value(FromLeBytes(b))
  {
    hide Num, LexLeq, ChunkToWords;
    LexIsNumeric(a, b, 256);
    LexIsNumeric(FromLeBytes(a), FromLeBytes(b), TWO64);
    FromLeBytesValue(a);
    FromLeBytesValue(b);
  }
}
