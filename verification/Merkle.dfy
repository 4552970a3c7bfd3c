/** The duplicate-last Merkle tree of pom.rs: levels, root, paths, and the two facts the rest
    rests on - an aligned batch folds to the node above it, and an accepted path that does not
    open the committed chunk yields a collision. */
module Merkle {
  import opened Hashing
  import opened Pow

  type Level = seq<Digest>

  /** One round: pair neighbours, pairing a lone last node with itself. */
  function Up(blake: Hash, level: Level): (next: Level)
    ensures |next| == (|level| + 1) / 2
  {
    seq((|level| + 1) / 2, i requires 0 <= i < (|level| + 1) / 2 =>
      HashPair(blake, level[2 * i], Partner(level, 2 * i)))
  }

  /** The node hashed with `level[i]`: its neighbour, or itself at a right edge. */
  function Partner(level: Level, i: nat): Digest
    requires i < |level|
  {
    var s := if i % 2 == 0 then i + 1 else i - 1;
    if s < |level| then level[s] else level[i]
  }

  /** `level` after `k` rounds. */
  function Rounds(blake: Hash, level: Level, k: nat): (r: Level)
    ensures |r| == CountAt(|level|, k)
  {
    if k == 0 then level else Up(blake, Rounds(blake, level, k - 1))
  }

  function Root(blake: Hash, leaves: Level): Digest
    requires |leaves| >= 1
  {
    Rounds(blake, leaves, Height(|leaves|))[0]
  }

  /** The sibling of leaf `i`'s ancestor at level `k`. */
  function SiblingAt(blake: Hash, leaves: Level, i: nat, k: nat): Digest
    requires i < |leaves|
  {
    ShrBelowCount(i, |leaves|, k);
    Partner(Rounds(blake, leaves, k), Shr(i, k))
  }

  /** The inclusion path of leaf `i`, siblings from the leaves upward. */
  function Path(blake: Hash, leaves: Level, i: nat): (path: seq<Digest>)
    requires i < |leaves|
    ensures |path| == Height(|leaves|)
  {
    seq(Height(|leaves|), k requires 0 <= k < Height(|leaves|) => SiblingAt(blake, leaves, i, k))
  }

  function Combine(blake: Hash, acc: Digest, sib: Digest, right: bool): Digest {
    if right then HashPair(blake, sib, acc) else HashPair(blake, acc, sib)
  }

  /** The node a path leads to from `leaf` at `index`. */
  function Climb(blake: Hash, leaf: Digest, index: nat, path: seq<Digest>): Digest {
    if path == [] then leaf
    else
      var m := |path| - 1;
      Combine(blake, Climb(blake, leaf, index, path[..m]), path[m], Shr(index, m) % 2 == 1)
  }

  // ---- rounds ----

  lemma {:induction false} RoundsAdd(blake: Hash, level: Level, a: nat, b: nat)
    ensures Rounds(blake, level, a + b) == Rounds(blake, Rounds(blake, level, a), b)
  {
    hide Up;
    if b > 0 { RoundsAdd(blake, level, a, b - 1); }
  }

  lemma UpAt(blake: Hash, level: Level, i: nat)
    requires i < (|level| + 1) / 2
    ensures Up(blake, level)[i] == HashPair(blake, level[2 * i], Partner(level, 2 * i))
  {}

  /** Rounds commute with cutting out a slice that starts even and ends even or at the edge. */
  lemma UpSlice(blake: Hash, level: Level, s: nat, e: nat)
    requires 2 * s <= e <= |level|
    requires e % 2 == 0 || e == |level|
    ensures Up(blake, level[2 * s..e]) == Up(blake, level)[s..(e + 1) / 2]
  {
    hide Up, HashPair;
    var cut := level[2 * s..e];
    var l, r := Up(blake, cut), Up(blake, level)[s..(e + 1) / 2];
    assert |l| == |r|;
    forall i | 0 <= i < |l|
      ensures l[i] == r[i]
    {
      UpAt(blake, cut, i);
      UpAt(blake, level, s + i);
      assert cut[2 * i] == level[2 * (s + i)];
      assert Partner(cut, 2 * i) == Partner(level, 2 * (s + i));
    }
  }

  /** The members of `level` below node `j` of the level `rounds` above. */
  function Batch(level: Level, j: nat, rounds: nat): (b: Level)
    requires j * Pow2(rounds) <= |level|
  {
    var lo := j * Pow2(rounds);
    level[lo..if lo + Pow2(rounds) <= |level| then lo + Pow2(rounds) else |level|]
  }

  lemma BatchStarts(level: Level, j: nat, rounds: nat)
    requires j < CountAt(|level|, rounds)
    ensures j * Pow2(rounds) < |level|
  {
    CountIsCeil(|level|, rounds);
    Scale(j, CountAt(|level|, rounds) - 1, Pow2(rounds));
  }

  lemma BatchUp(blake: Hash, level: Level, j: nat, rounds: nat)
    requires rounds >= 1
    requires j * Pow2(rounds) < |level|
    ensures j * Pow2(rounds - 1) < |Up(blake, level)|
    ensures Up(blake, Batch(level, j, rounds)) == Batch(Up(blake, level), j, rounds - 1)
  {
    hide Up;
    var p := Pow2(rounds - 1);
    var lo := j * p;
    assert j * (2 * p) == 2 * lo;
    var hi := if 2 * lo + 2 * p <= |level| then 2 * lo + 2 * p else |level|;
    UpSlice(blake, level, lo, hi);
    assert Batch(level, j, rounds) == level[2 * lo..hi];
  }

  lemma RoundsFirst(blake: Hash, level: Level, k: nat)
    requires k >= 1
    ensures Rounds(blake, level, k) == Rounds(blake, Up(blake, level), k - 1)
  {
    hide Up;
    RoundsAdd(blake, level, 1, k - 1);
    assert Rounds(blake, level, 1) == Up(blake, Rounds(blake, level, 0));
  }

  /** A batch of `2^rounds` neighbours, short only at the right edge, folded by exactly `rounds`
      rounds is the dense tree's node above it. */
  lemma {:induction false} BatchFold(blake: Hash, level: Level, j: nat, rounds: nat)
    requires j < CountAt(|level|, rounds)
    ensures j * Pow2(rounds) < |level|
    ensures Rounds(blake, Batch(level, j, rounds), rounds) == [Rounds(blake, level, rounds)[j]]
    decreases rounds
  {
    hide Up;
    BatchStarts(level, j, rounds);
    if rounds == 0 {
      assert Batch(level, j, 0) == [level[j]];
    } else {
      hide Batch;
      BatchUp(blake, level, j, rounds);
      CountAtShift(|level|, rounds);
      BatchFold(blake, Up(blake, level), j, rounds - 1);
      RoundsFirst(blake, Batch(level, j, rounds), rounds);
      RoundsFirst(blake, level, rounds);
    }
  }

  // ---- paths ----

  lemma ClimbStep(blake: Hash, level: Level, x: nat)
    requires x < |level|
    ensures Combine(blake, level[x], Partner(level, x), x % 2 == 1) == Up(blake, level)[x / 2]
  {
    assert x == 2 * (x / 2) || x == 2 * (x / 2) + 1;
  }

  lemma PathAt(blake: Hash, leaves: Level, i: nat, k: nat)
    requires i < |leaves| && k < Height(|leaves|)
    ensures Shr(i, k) < CountAt(|leaves|, k)
    ensures Path(blake, leaves, i)[k] == Partner(Rounds(blake, leaves, k), Shr(i, k))
  {
    hide Rounds, Partner;
    ShrBelowCount(i, |leaves|, k);
  }

  /** From the ancestor of leaf `i` at level `d`, the siblings of the next `k` levels lead to its
      ancestor `k` levels up. */
  lemma {:induction false} ClimbFrom(blake: Hash, leaves: Level, i: nat, d: nat, k: nat)
    requires i < |leaves| && d + k <= Height(|leaves|)
    ensures Shr(i, d) < CountAt(|leaves|, d) && Shr(i, d + k) < CountAt(|leaves|, d + k)
    ensures Climb(blake, Rounds(blake, leaves, d)[Shr(i, d)], Shr(i, d), Path(blake, leaves, i)[d..d + k])
         == Rounds(blake, leaves, d + k)[Shr(i, d + k)]
  {
    hide Up, Combine, Path, Partner, Climb, Shr, CountAt, Rounds;
    ShrBelowCount(i, |leaves|, d);
    ShrBelowCount(i, |leaves|, d + k);
    var path, node := Path(blake, leaves, i), Rounds(blake, leaves, d)[Shr(i, d)];
    if k == 0 {
      assert path[d..d + k] == [];
      ClimbNone(blake, node, Shr(i, d));
    } else {
      ClimbFrom(blake, leaves, i, d, k - 1);
      assert path[d..d + k] == path[d..d + k - 1] + [path[d + k - 1]];
      ClimbSnoc(blake, node, Shr(i, d), path[d..d + k - 1], path[d + k - 1]);
      PathAt(blake, leaves, i, d + k - 1);
      ShrAdd(i, d, k - 1);
      ClimbStep(blake, Rounds(blake, leaves, d + k - 1), Shr(i, d + k - 1));
      NextRound(blake, leaves, d + k - 1);
      ShrNext(i, d + k);
    }
  }

  lemma ClimbNone(blake: Hash, leaf: Digest, index: nat)
    ensures Climb(blake, leaf, index, []) == leaf
  {}

  lemma ClimbSnoc(blake: Hash, leaf: Digest, index: nat, path: seq<Digest>, sib: Digest)
    ensures Climb(blake, leaf, index, path + [sib])
         == Combine(blake, Climb(blake, leaf, index, path), sib, Shr(index, |path|) % 2 == 1)
  {
    hide Combine;
    assert (path + [sib])[..|path|] == path;
  }

  lemma NextRound(blake: Hash, leaves: Level, k: nat)
    ensures Rounds(blake, leaves, k + 1) == Up(blake, Rounds(blake, leaves, k))
  {}

  lemma RootIsShr(n: nat, i: nat)
    requires i < n
    ensures CountAt(n, Height(n)) == 1
    ensures Shr(i, Height(n)) == 0
  {
    HeightIsFirst(n, Height(n));
    ShrBelowCount(i, n, Height(n));
  }

  /** Dropping the lowest `d` siblings of a leaf's path leaves a path for the node `d` levels up. */
  lemma PathSuffixOpens(blake: Hash, leaves: Level, i: nat, d: nat)
    requires i < |leaves| && d <= Height(|leaves|)
    ensures Shr(i, d) < CountAt(|leaves|, d)
    ensures Climb(blake, Rounds(blake, leaves, d)[Shr(i, d)], Shr(i, d), Path(blake, leaves, i)[d..])
         == Root(blake, leaves)
  {
    hide Up, Path, Climb;
    var h := Height(|leaves|);
    ClimbFrom(blake, leaves, i, d, h - d);
    RootIsShr(|leaves|, i);
    assert Path(blake, leaves, i)[d..] == Path(blake, leaves, i)[d..d + (h - d)];
  }

  /** Every leaf's path is accepted. */
  lemma PathOpens(blake: Hash, leaves: Level, i: nat)
    requires i < |leaves|
    ensures Climb(blake, leaves[i], i, Path(blake, leaves, i)) == Root(blake, leaves)
  {
    hide Up, Path, Climb;
    PathSuffixOpens(blake, leaves, i, 0);
    assert Path(blake, leaves, i)[0..] == Path(blake, leaves, i);
  }

  lemma {:induction false} ClimbConcat(blake: Hash, leaf: Digest, index: nat, p: seq<Digest>, q: seq<Digest>)
    ensures Climb(blake, leaf, index, p + q) == Climb(blake, Climb(blake, leaf, index, p), Shr(index, |p|), q)
    decreases |q|
  {
    hide Combine;
    if q == [] {
      assert p + q == p;
    } else {
      var m := |q| - 1;
      ClimbConcat(blake, leaf, index, p, q[..m]);
      assert (p + q)[..|p| + m] == p + q[..m];
      ShrAdd(index, |p|, m);
    }
  }

  lemma {:induction false} ClimbLowBits(blake: Hash, leaf: Digest, j: nat, d: nat, c: nat, path: seq<Digest>)
    requires |path| <= d
    ensures Climb(blake, leaf, j * Pow2(d) + c, path) == Climb(blake, leaf, c, path)
    decreases |path|
  {
    hide Combine;
    if path != [] {
      var m := |path| - 1;
      ClimbLowBits(blake, leaf, j, d, c, path[..m]);
      LowBit(j, d, c, m);
    }
  }

  // ---- soundness ----

  function Leaves(blake: Hash, chunks: seq<Bytes32>): (leaves: Level)
    ensures |leaves| == |chunks|
  {
    seq(|chunks|, i requires 0 <= i < |chunks| => blake(chunks[i]))
  }

  /** What the tree hashed to get node `t` of level `k`. */
  function NodeBytes(blake: Hash, chunks: seq<Bytes32>, k: nat, t: nat): (bytes: seq<Byte>)
    requires t < CountAt(|chunks|, k)
    ensures |bytes| == if k == 0 then 32 else 64
  {
    if k == 0 then chunks[t]
    else
      var below := Rounds(blake, Leaves(blake, chunks), k - 1);
      PairBytes(below[2 * t], Partner(below, 2 * t))
  }

  /** What the verifier hashed last on the way up from chunk `c`. */
  function OpeningBytes(blake: Hash, c: Bytes32, off: nat, path: seq<Digest>): (bytes: seq<Byte>)
    ensures |bytes| == if path == [] then 32 else 64
    ensures blake(bytes) == Climb(blake, blake(c), off, path)
  {
    if path == [] then c
    else
      var m := |path| - 1;
      var acc := Climb(blake, blake(c), off, path[..m]);
      if Shr(off, m) % 2 == 1 then PairBytes(path[m], acc) else PairBytes(acc, path[m])
  }

  function ChildOf(n: nat, k: nat, t: nat, right: bool): (child: nat)
    requires k >= 1 && t < CountAt(n, k)
    ensures child < CountAt(n, k - 1)
  {
    if right && 2 * t + 1 < CountAt(n, k - 1) then 2 * t + 1 else 2 * t
  }

  /** Walk the opening and the tree down together until what they hash differs. */
  function Extract(blake: Hash, chunks: seq<Bytes32>, k: nat, t: nat, c: Bytes32, off: nat, path: seq<Digest>): Preimages
    requires t < CountAt(|chunks|, k)
    decreases |path|
  {
    var shown, tree := OpeningBytes(blake, c, off, path), NodeBytes(blake, chunks, k, t);
    if shown != tree || path == [] || k == 0 then Preimages(shown, tree)
    else
      var m := |path| - 1;
      Extract(blake, chunks, k - 1, ChildOf(|chunks|, k, t, Shr(off, m) % 2 == 1), c, off, path[..m])
  }

  /** The leaf reached from node `t` of level `k` by the bits of `off`. */
  function Descend(n: nat, k: nat, t: nat, off: nat): (leaf: nat)
    requires t < CountAt(n, k)
    ensures leaf < n
    decreases k
  {
    if k == 0 then t else Descend(n, k - 1, ChildOf(n, k, t, Shr(off, k - 1) % 2 == 1), off)
  }

  lemma {:induction false} DescendByBits(n: nat, k: nat, off: nat)
    requires off < n
    ensures Shr(off, k) < CountAt(n, k)
    ensures Descend(n, k, Shr(off, k), off) == off
  {
    ShrBelowCount(off, n, k);
    if k > 0 {
      DescendByBits(n, k - 1, off);
      assert ChildOf(n, k, Shr(off, k), Shr(off, k - 1) % 2 == 1) == Shr(off, k - 1);
    }
  }

  lemma NodeBytesHash(blake: Hash, chunks: seq<Bytes32>, k: nat, t: nat)
    requires t < CountAt(|chunks|, k)
    ensures blake(NodeBytes(blake, chunks, k, t)) == Rounds(blake, Leaves(blake, chunks), k)[t]
  {}

  lemma PairBytesInjective(a: Digest, b: Digest, c: Digest, d: Digest)
    requires PairBytes(a, b) == PairBytes(c, d)
    ensures a == c && b == d
  {
    assert a.bytes == PairBytes(a, b)[..32] && b.bytes == PairBytes(a, b)[32..];
    assert c.bytes == PairBytes(c, d)[..32] && d.bytes == PairBytes(c, d)[32..];
  }

  /** Equal bytes hashed one level up: the accumulator below is the tree's child. */
  lemma ChildAgrees(blake: Hash, chunks: seq<Bytes32>, k: nat, t: nat, c: Bytes32, off: nat, path: seq<Digest>)
    requires k >= 1 && path != [] && t < CountAt(|chunks|, k)
    requires OpeningBytes(blake, c, off, path) == NodeBytes(blake, chunks, k, t)
    ensures var m := |path| - 1;
      Climb(blake, blake(c), off, path[..m])
        == Rounds(blake, Leaves(blake, chunks), k - 1)[ChildOf(|chunks|, k, t, Shr(off, m) % 2 == 1)]
  {
    hide Rounds, Climb, Leaves, PairBytes, Shr;
    var m := |path| - 1;
    var acc := Climb(blake, blake(c), off, path[..m]);
    var below := Rounds(blake, Leaves(blake, chunks), k - 1);
    if Shr(off, m) % 2 == 1 {
      PairBytesInjective(path[m], acc, below[2 * t], Partner(below, 2 * t));
    } else {
      PairBytesInjective(acc, path[m], below[2 * t], Partner(below, 2 * t));
    }
  }

  lemma {:induction false} ExtractSound(blake: Hash, chunks: seq<Bytes32>, k: nat, t: nat, c: Bytes32, off: nat, path: seq<Digest>)
    requires t < CountAt(|chunks|, k)
    requires Climb(blake, blake(c), off, path) == Rounds(blake, Leaves(blake, chunks), k)[t]
    ensures IsCollision(blake, Extract(blake, chunks, k, t, c, off, path))
         || (|path| == k && c == chunks[Descend(|chunks|, k, t, off)])
    decreases |path|
  {
    hide Rounds, Leaves, Climb;
    var shown, tree := OpeningBytes(blake, c, off, path), NodeBytes(blake, chunks, k, t);
    NodeBytesHash(blake, chunks, k, t);
    if shown == tree && path != [] && k != 0 {
      var m := |path| - 1;
      ChildAgrees(blake, chunks, k, t, c, off, path);
      ExtractSound(blake, chunks, k - 1, ChildOf(|chunks|, k, t, Shr(off, m) % 2 == 1), c, off, path[..m]);
    }
  }

  /** The collision a false opening of chunk `off` gives away. */
  function ChunkCollision(blake: Hash, chunks: seq<Bytes32>, c: Bytes32, off: nat, path: seq<Digest>): Preimages
    requires |chunks| >= 1
  {
    RootIsShr(|chunks|, 0);
    Extract(blake, chunks, Height(|chunks|), 0, c, off, path)
  }

  /** A path of any length accepted at `off` under the root opens exactly chunk `off`, or
      `ChunkCollision` computes two inputs with one hash. */
  lemma OpeningSound(blake: Hash, chunks: seq<Bytes32>, c: Bytes32, off: nat, path: seq<Digest>)
    requires off < |chunks|
    requires Climb(blake, blake(c), off, path) == Root(blake, Leaves(blake, chunks))
    ensures (c == chunks[off] && |path| == Height(|chunks|))
         || IsCollision(blake, ChunkCollision(blake, chunks, c, off, path))
  {
    hide Rounds, Leaves, Climb, Extract, Descend;
    var n, h := |chunks|, Height(|chunks|);
    RootIsShr(n, off);
    DescendByBits(n, h, off);
    ExtractSound(blake, chunks, h, 0, c, off, path);
  }

  // ---- aligned groups of 2^d chunks: tiles and columns ----

  /** Group `j` lies inside the blob, away from the duplicate-last edge. */
  predicate GroupFits(n: nat, d: nat, j: nat) {
    j * Pow2(d) + Pow2(d) <= n
  }

  function Group(chunks: seq<Bytes32>, d: nat, j: nat): (group: seq<Bytes32>)
    requires GroupFits(|chunks|, d, j)
    ensures |group| == Pow2(d)
  {
    chunks[j * Pow2(d)..j * Pow2(d) + Pow2(d)]
  }

  function GroupRoot(blake: Hash, group: seq<Bytes32>): Digest
    requires |group| >= 1
  {
    Root(blake, Leaves(blake, group))
  }

  lemma GroupCounted(n: nat, d: nat, j: nat)
    requires GroupFits(n, d, j)
    ensures j < CountAt(n, d)
  {
    ShrOfMultiple(j, d, 0);
    ShrBelowCount(j * Pow2(d), n, d);
  }

  lemma LeavesSlice(blake: Hash, chunks: seq<Bytes32>, a: nat, b: nat)
    requires a <= b <= |chunks|
    ensures Leaves(blake, chunks[a..b]) == Leaves(blake, chunks)[a..b]
  {}

  lemma GroupIsBatch(blake: Hash, chunks: seq<Bytes32>, d: nat, j: nat)
    requires GroupFits(|chunks|, d, j)
    ensures Leaves(blake, Group(chunks, d, j)) == Batch(Leaves(blake, chunks), j, d)
  {
    hide Leaves;
    LeavesSlice(blake, chunks, j * Pow2(d), j * Pow2(d) + Pow2(d));
  }

  lemma GroupRootRounds(blake: Hash, group: seq<Bytes32>, d: nat)
    requires |group| == Pow2(d)
    ensures GroupRoot(blake, group) == Rounds(blake, Leaves(blake, group), d)[0]
  {
    hide Rounds, Leaves;
    HeightOfPow2(d);
  }

  /** The root over an aligned group is the tree's own node above it. */
  lemma GroupRootIsNode(blake: Hash, chunks: seq<Bytes32>, d: nat, j: nat)
    requires GroupFits(|chunks|, d, j)
    ensures j < CountAt(|chunks|, d)
    ensures GroupRoot(blake, Group(chunks, d, j)) == Rounds(blake, Leaves(blake, chunks), d)[j]
  {
    hide *;
    GroupCounted(|chunks|, d, j);
    var leaves := Leaves(blake, chunks);
    BatchFold(blake, leaves, j, d);
    GroupIsBatch(blake, chunks, d, j);
    GroupRootRounds(blake, Group(chunks, d, j), d);
  }

  /** A chunk path cut below level `d` opens its group's root. */
  lemma GroupPathOpens(blake: Hash, chunks: seq<Bytes32>, d: nat, j: nat)
    requires GroupFits(|chunks|, d, j)
    ensures d <= Height(|chunks|)
    ensures Climb(blake, GroupRoot(blake, Group(chunks, d, j)), j,
                  Path(blake, Leaves(blake, chunks), j * Pow2(d))[d..])
         == Root(blake, Leaves(blake, chunks))
  {
    hide Rounds, Climb, Path, Leaves, GroupRoot;
    ShrOfMultiple(j, d, 0);
    HeightCovers(|chunks|, d, j);
    GroupRootIsNode(blake, chunks, d, j);
    PathSuffixOpens(blake, Leaves(blake, chunks), j * Pow2(d), d);
  }

  lemma HeightCovers(n: nat, d: nat, j: nat)
    requires GroupFits(n, d, j)
    ensures d <= Height(n)
  {
    if Height(n) < d {
      HeightFits(n);
      Pow2Monotone(Height(n), d - 1);
    }
  }

  /** A chunk inside a group, opened through the group's root. */
  lemma ClimbThroughGroup(blake: Hash, group: seq<Bytes32>, d: nat, j: nat, c: nat, path: seq<Digest>)
    requires |group| == Pow2(d) && c < |group|
    ensures Climb(blake, blake(group[c]), j * Pow2(d) + c, Path(blake, Leaves(blake, group), c) + path)
         == Climb(blake, GroupRoot(blake, group), j, path)
  {
    hide Path, Climb, Rounds;
    var leaves := Leaves(blake, group);
    var low := Path(blake, leaves, c);
    HeightOfPow2(d);
    ClimbConcat(blake, blake(group[c]), j * Pow2(d) + c, low, path);
    ClimbLowBits(blake, blake(group[c]), j, d, c, low);
    PathOpens(blake, leaves, c);
    ShrOfMultiple(j, d, c);
  }

  function FirstDifference(a: seq<Bytes32>, b: seq<Bytes32>): (i: nat)
    requires |a| == |b|
    ensures i <= |a|
    ensures i == |a| <==> a == b
    ensures i < |a| ==> a[i] != b[i]
  {
    if a == [] then 0
    else if a[0] != b[0] then 0
    else
      assert a == [a[0]] + a[1..] && b == [b[0]] + b[1..];
      1 + FirstDifference(a[1..], b[1..])
  }

  /** The collision a false opening of group `j` gives away. */
  function GroupCollision(blake: Hash, chunks: seq<Bytes32>, group: seq<Bytes32>, d: nat, j: nat, path: seq<Digest>): Preimages
    requires |group| == Pow2(d) && GroupFits(|chunks|, d, j)
  {
    var i := FirstDifference(group, Group(chunks, d, j));
    var c := if i < |group| then i else 0;
    ChunkCollision(blake, chunks, group[c], j * Pow2(d) + c, Path(blake, Leaves(blake, group), c) + path)
  }

  /** An accepted group opening opens exactly the blob's group, or gives a collision. */
  lemma GroupOpeningSound(blake: Hash, chunks: seq<Bytes32>, group: seq<Bytes32>, d: nat, j: nat, path: seq<Digest>)
    requires |group| == Pow2(d) && GroupFits(|chunks|, d, j)
    requires Climb(blake, GroupRoot(blake, group), j, path) == Root(blake, Leaves(blake, chunks))
    ensures group == Group(chunks, d, j)
         || IsCollision(blake, GroupCollision(blake, chunks, group, d, j, path))
  {
    hide Climb, Path, Rounds, ChunkCollision, Leaves, GroupRoot, FirstDifference, Pow2, Height, Group, GroupFits, Root;
    var i := FirstDifference(group, Group(chunks, d, j));
    if i < |group| {
      GroupMember(chunks, d, j, i);
      ClimbThroughGroup(blake, group, d, j, i, path);
      OpeningSound(blake, chunks, group[i], j * Pow2(d) + i, Path(blake, Leaves(blake, group), i) + path);
    }
  }

  lemma GroupMember(chunks: seq<Bytes32>, d: nat, j: nat, i: nat)
    requires GroupFits(|chunks|, d, j) && i < Pow2(d)
    ensures j * Pow2(d) + i < |chunks| && |Group(chunks, d, j)| == Pow2(d)
    ensures Group(chunks, d, j)[i] == chunks[j * Pow2(d) + i]
  {}
}
