/** Bytes, digests and the hash the whole model is parameterised by. `blake` is never
    interpreted: every statement holds for every function from byte strings to 32 bytes,
    and soundness is stated by computing two different inputs with the same digest. */
module Hashing {
  type Byte = b: int | 0 <= b < 256

  /** 32 bytes: a chunk of the weight blob, or the inside of a digest. */
  type Bytes32 = b: seq<Byte> | |b| == 32 witness seq(32, _ => 0)

  datatype Digest = Digest(bytes: Bytes32)

  type Hash = seq<Byte> -> Digest

  /** 32 zero bytes. */
  function ZeroDigest(): Digest {
    Digest(seq(32, _ => 0))
  }

  /** The 64 bytes hashed for an inner node (pom.rs `hash_pair`). */
  function PairBytes(l: Digest, r: Digest): (bytes: seq<Byte>)
    ensures |bytes| == 64
  {
    l.bytes + r.bytes
  }

  function HashPair(blake: Hash, l: Digest, r: Digest): Digest {
    blake(PairBytes(l, r))
  }

  /** Two byte strings; a collision when they differ and hash alike. */
  datatype Preimages = Preimages(left: seq<Byte>, right: seq<Byte>)

  predicate IsCollision(blake: Hash, p: Preimages) {
    p.left != p.right && blake(p.left) == blake(p.right)
  }
}

/** Powers of two and the shifts of tree indices. */
module Pow {
  function Pow2(k: nat): (p: nat)
    ensures p >= 1
  {
    if k == 0 then 1 else 2 * Pow2(k - 1)
  }

  lemma {:induction false} Pow2Add(a: nat, b: nat)
    ensures Pow2(a + b) == Pow2(a) * Pow2(b)
  {
    if b > 0 {
      Pow2Add(a, b - 1);
      DoublePow(Pow2(a), b - 1);
    }
  }

  lemma {:induction false} Pow2Monotone(a: nat, b: nat)
    requires a <= b
    ensures Pow2(a) <= Pow2(b)
  {
    if a < b { Pow2Monotone(a, b - 1); }
  }

  /** `n >> k`. */
  function Shr(n: nat, k: nat): (r: nat)
    ensures r <= n
  {
    if k == 0 then n else Shr(n, k - 1) / 2
  }

  /** `ceil(n / 2^k)` as the tree computes it, one halving a level. */
  function CountAt(n: nat, k: nat): (r: nat)
    ensures n >= 1 ==> r >= 1
    ensures r <= n
  {
    if k == 0 then n else (CountAt(n, k - 1) + 1) / 2
  }

  lemma {:induction false} ShrAdd(n: nat, a: nat, b: nat)
    ensures Shr(n, a + b) == Shr(Shr(n, a), b)
  {
    if b > 0 { ShrAdd(n, a, b - 1); }
  }

  lemma {:induction false} CountAtAdd(n: nat, a: nat, b: nat)
    ensures CountAt(n, a + b) == CountAt(CountAt(n, a), b)
  {
    if b > 0 { CountAtAdd(n, a, b - 1); }
  }

  /** A live index stays live at every level. */
  lemma {:induction false} ShrBelowCount(i: nat, n: nat, k: nat)
    requires i < n
    ensures Shr(i, k) < CountAt(n, k)
  {
    if k > 0 { ShrBelowCount(i, n, k - 1); }
  }

  lemma {:induction false} ShrOfMultiple(j: nat, k: nat, c: nat)
    requires c < Pow2(k)
    ensures Shr(j * Pow2(k) + c, k) == j
    decreases k
  {
    hide Shr;
    if k == 0 {
      ShrZero(j + c);
    } else {
      var p := Pow2(k - 1);
      DoublePow(j, k - 1);
      Regroup(j, p);
      if c < p {
        ShrOfMultiple(2 * j, k - 1, c);
        ShrNext(j * Pow2(k) + c, k);
      } else {
        ShrOfMultiple(2 * j + 1, k - 1, c - p);
        ShrNext(j * Pow2(k) + c, k);
      }
    }
  }

  lemma Pow2Zero(n: nat)
    ensures n * Pow2(0) == n
  {}

  lemma ShrZero(n: nat)
    ensures Shr(n, 0) == n
  {}

  lemma Regroup(j: nat, p: nat)
    ensures (2 * j) * p == 2 * (j * p) && (2 * j + 1) * p == 2 * (j * p) + p
  {}

  lemma ShrNext(n: nat, k: nat)
    requires k > 0
    ensures Shr(n, k) == Shr(n, k - 1) / 2
  {}

  lemma Scale(a: int, b: int, p: nat)
    requires a <= b
    ensures a * p <= b * p
  {}

  lemma HalveCeil(c: int, d: int, p: nat)
    requires 2 * d - 1 <= c <= 2 * d
    ensures c * p <= d * (2 * p)
    ensures (d - 1) * (2 * p) <= (c - 1) * p
  {
    Scale(c, 2 * d, p);
    Scale(2 * d - 2, c - 1, p);
  }

  lemma {:induction false} CountIsCeil(n: nat, k: nat)
    ensures CountAt(n, k) * Pow2(k) >= n
    ensures n > 0 ==> (CountAt(n, k) - 1) * Pow2(k) < n
  {
    if k > 0 {
      CountIsCeil(n, k - 1);
      HalveCeil(CountAt(n, k - 1), CountAt(n, k), Pow2(k - 1));
    }
  }

  /** Levels above the leaves until one node is left. */
  function Height(n: nat): (h: nat)
    requires n >= 1
  {
    if n == 1 then 0 else 1 + Height((n + 1) / 2)
  }

  lemma {:induction false} CountAtShift(n: nat, k: nat)
    requires k >= 1
    ensures CountAt(n, k) == CountAt((n + 1) / 2, k - 1)
  {
    CountAtAdd(n, 1, k - 1);
    assert CountAt(n, 1) == (CountAt(n, 0) + 1) / 2;
  }

  /** The root level is the first with one node. */
  lemma {:induction false} HeightIsFirst(n: nat, k: nat)
    requires n >= 1
    ensures CountAt(n, k) == 1 <==> k >= Height(n)
    decreases k
  {
    if n == 1 {
      if k > 0 { HeightIsFirst(n, k - 1); }
    } else if k > 0 {
      CountAtShift(n, k);
      HeightIsFirst((n + 1) / 2, k - 1);
    }
  }

  lemma HeightFits(n: nat)
    requires n >= 1
    ensures n <= Pow2(Height(n))
  {
    HeightIsFirst(n, Height(n));
    CountIsCeil(n, Height(n));
  }

  lemma DoublePow(j: nat, k: nat)
    ensures j * Pow2(k + 1) == 2 * (j * Pow2(k))
  {
    var q := Pow2(k);
    assert j * (2 * q) == 2 * (j * q);
  }

  lemma HalveSum(a: nat, b: nat)
    ensures (2 * a + b) / 2 == a + b / 2
    ensures (2 * a + b) % 2 == b % 2
  {}

  /** The bits of `j * 2^d + c` below `d` are those of `c`. */
  lemma {:induction false} ShrLow(j: nat, d: nat, c: nat, m: nat)
    requires m <= d
    ensures Shr(j * Pow2(d) + c, m) == j * Pow2(d - m) + Shr(c, m)
  {
    if m > 0 {
      ShrLow(j, d, c, m - 1);
      DoublePow(j, d - m);
      HalveSum(j * Pow2(d - m), Shr(c, m - 1));
    }
  }

  lemma LowBit(j: nat, d: nat, c: nat, m: nat)
    requires m < d
    ensures Shr(j * Pow2(d) + c, m) % 2 == Shr(c, m) % 2
  {
    ShrLow(j, d, c, m);
    DoublePow(j, d - m - 1);
    HalveSum(j * Pow2(d - m - 1), Shr(c, m));
  }

  lemma {:induction false} HeightOfPow2(d: nat)
    ensures Height(Pow2(d)) == d
  {
    if d > 0 { HeightOfPow2(d - 1); }
  }
}
