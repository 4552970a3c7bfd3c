/** Byte strings made of whole 32-byte chunks. */
module Tiles {
  import opened Hashing

  function Split(bytes: seq<Byte>): (chunks: seq<Bytes32>)
    requires |bytes| % 32 == 0
    ensures |chunks| == |bytes| / 32
  {
    seq(|bytes| / 32, c requires 0 <= c < |bytes| / 32 => bytes[32 * c..32 * c + 32])
  }

  function Join(chunks: seq<Bytes32>): (bytes: seq<Byte>)
    ensures |bytes| == 32 * |chunks|
  {
    if chunks == [] then [] else Join(chunks[..|chunks| - 1]) + chunks[|chunks| - 1]
  }

  lemma {:induction false} JoinAt(chunks: seq<Bytes32>, c: nat)
    requires c < |chunks|
    ensures Join(chunks)[32 * c..32 * c + 32] == chunks[c]
  {
    var k := |chunks| - 1;
    if c < k {
      JoinAt(chunks[..k], c);
      assert Join(chunks)[32 * c..32 * c + 32] == Join(chunks[..k])[32 * c..32 * c + 32];
    }
  }

  lemma SplitOfJoin(chunks: seq<Bytes32>)
    ensures Split(Join(chunks)) == chunks
  {
    hide Join;
    forall c | 0 <= c < |chunks|
      ensures Split(Join(chunks))[c] == chunks[c]
    {
      JoinAt(chunks, c);
    }
  }

  lemma {:induction false} JoinOfSplit(bytes: seq<Byte>)
    requires |bytes| % 32 == 0
    ensures Join(Split(bytes)) == bytes
  {
    if bytes != [] {
      var m := |bytes| - 32;
      SplitPrefix(bytes, m);
      JoinOfSplit(bytes[..m]);
      JoinLast(Split(bytes));
      SplitLast(bytes);
      assert bytes == bytes[..m] + bytes[m..];
    }
  }

  lemma SplitPrefix(bytes: seq<Byte>, m: nat)
    requires |bytes| % 32 == 0 && m % 32 == 0 && m <= |bytes|
    ensures Split(bytes[..m]) == Split(bytes)[..m / 32]
  {
    forall c | 0 <= c < m / 32
      ensures Split(bytes[..m])[c] == Split(bytes)[c]
    {
      assert bytes[..m][32 * c..32 * c + 32] == bytes[32 * c..32 * c + 32];
    }
  }

  lemma SplitLast(bytes: seq<Byte>)
    requires |bytes| % 32 == 0 && bytes != []
    ensures Split(bytes)[|bytes| / 32 - 1] == bytes[|bytes| - 32..]
  {}

  lemma JoinLast(chunks: seq<Bytes32>)
    requires chunks != []
    ensures Join(chunks) == Join(chunks[..|chunks| - 1]) + chunks[|chunks| - 1]
  {}

  lemma SplitInjective(a: seq<Byte>, b: seq<Byte>)
    requires |a| % 32 == 0 && |b| % 32 == 0
    requires Split(a) == Split(b)
    ensures a == b
  {
    hide Split;
    JoinOfSplit(a);
    JoinOfSplit(b);
  }

  lemma {:induction false} JoinAppend(a: seq<Bytes32>, b: seq<Bytes32>)
    ensures Join(a + b) == Join(a) + Join(b)
    decreases |b|
  {
    if b == [] {
      assert a + b == a;
    } else {
      var k := |b| - 1;
      JoinAppend(a, b[..k]);
      assert (a + b)[..|a| + k] == a + b[..k];
    }
  }

  lemma MiddleSlice<T>(x: seq<T>, y: seq<T>, z: seq<T>)
    ensures (x + y + z)[|x|..|x| + |y|] == y
  {}

  lemma SliceOfSlice<T>(s: seq<T>, a: nat, b: nat, c: nat, d: nat)
    requires a <= b <= |s| && c <= d <= b - a
    ensures s[a..b][c..d] == s[a + c..a + d]
  {
    forall i | 0 <= i < d - c
      ensures s[a..b][c..d][i] == s[a + c..a + d][i]
    {
      assert s[a..b][c..d][i] == s[a..b][c + i] == s[a + c + i];
    }
  }

  /** A run of chunks is a run of bytes. */
  lemma JoinSlice(chunks: seq<Bytes32>, a: nat, b: nat)
    requires a <= b <= |chunks|
    ensures Join(chunks)[32 * a..32 * b] == Join(chunks[a..b])
  {
    hide Join;
    var x, y, z := chunks[..a], chunks[a..b], chunks[b..];
    ThreeParts(chunks, a, b);
    JoinAppend(x, y);
    JoinAppend(x + y, z);
    MiddleSlice(Join(x), Join(y), Join(z));
  }

  lemma ThreeParts<T>(s: seq<T>, a: nat, b: nat)
    requires a <= b <= |s|
    ensures s == s[..a] + s[a..b] + s[b..]
  {}
}
