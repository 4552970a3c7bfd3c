/** Machine words as bounded integers: xor, wrap-around, and little-endian bytes. */
module Words {
  import opened Hashing
  import opened Pow
  import opened Digits

  const TWO32: nat := 0x1_0000_0000
  const TWO64: nat := 0x1_0000_0000_0000_0000

  type U32 = w: int | 0 <= w < 0x1_0000_0000
  type U64 = w: int | 0 <= w < 0x1_0000_0000_0000_0000

  /** Xor of two `k`-bit words. */
  function XorBits(k: nat, a: nat, b: nat): (r: nat)
    requires a < Pow2(k) && b < Pow2(k)
    ensures r < Pow2(k)
  {
    if k == 0 then 0 else (a % 2 + b % 2) % 2 + 2 * XorBits(k - 1, a / 2, b / 2)
  }

  lemma WordSizes()
    ensures Pow2(32) == TWO32 && Pow2(64) == TWO64
  {
    assert Pow2(8) == 256;
    Pow2Add(8, 8);
    Pow2Add(16, 16);
    Pow2Add(32, 32);
  }

  function Xor32(a: U32, b: U32): U32 {
    WordSizes();
    XorBits(32, a, b)
  }

  function Xor(a: U64, b: U64): U64 {
    WordSizes();
    XorBits(64, a, b)
  }

  function Wrap(n: int): U64 {
    n % TWO64
  }

  function Wrap32(n: int): U32 {
    n % TWO32
  }

  /** The number a little-endian byte string denotes. */
  function FromLe(bytes: seq<Byte>): (n: nat)
    ensures n < Power(256, |bytes|)
  {
    NumBound(bytes, 256);
    Num(bytes, 256)
  }

  function ToLe(n: nat, k: nat): (bytes: seq<Byte>)
    ensures |bytes| == k
  {
    DigitsOf(n, k, 256)
  }

  lemma ToLeOfFromLe(bytes: seq<Byte>)
    ensures ToLe(FromLe(bytes), |bytes|) == bytes
  {
    DigitsOfNum(bytes, 256);
  }

  lemma FromLeOfToLe(n: nat, k: nat)
    requires n < Power(256, k)
    ensures FromLe(ToLe(n, k)) == n
  {
    NumOfDigits(n, k, 256);
  }

  lemma WordBytes()
    ensures Power(256, 4) == TWO32 && Power(256, 8) == TWO64
  {
    assert Power(256, 2) == 65536;
  }

  function ReadU64(bytes: seq<Byte>, at: nat): U64
    requires at + 8 <= |bytes|
  {
    WordBytes();
    FromLe(bytes[at..at + 8])
  }

  function ReadU32(bytes: seq<Byte>, at: nat): U32
    requires at + 4 <= |bytes|
  {
    WordBytes();
    FromLe(bytes[at..at + 4])
  }

  /** A chunk as four words, and back. */
  function ChunkToWords(c: Bytes32): (w: seq<U64>)
    ensures |w| == 4
  {
    [ReadU64(c, 0), ReadU64(c, 8), ReadU64(c, 16), ReadU64(c, 24)]
  }

  function WordsToBytes(w: seq<U64>): Bytes32
    requires |w| == 4
  {
    ToLe(w[0], 8) + ToLe(w[1], 8) + ToLe(w[2], 8) + ToLe(w[3], 8)
  }

  lemma WordsRoundTrip(c: Bytes32)
    ensures WordsToBytes(ChunkToWords(c)) == c
  {
    hide FromLe, ToLe;
    ToLeOfFromLe(c[0..8]);
    ToLeOfFromLe(c[8..16]);
    ToLeOfFromLe(c[16..24]);
    ToLeOfFromLe(c[24..32]);
    assert c == c[0..8] + c[8..16] + c[16..24] + c[24..32];
  }
}
