/** The loops of pom.rs over whole levels, each proved to compute its definition in `Merkle`. */
module MerkleOps {
  import opened Hashing
  import opened Pow
  import opened Merkle

  /** The pairing loop every fold repeats. */
  method NextLevel(blake: Hash, level: Level) returns (next: Level)
    ensures next == Up(blake, level)
  {
    hide Up, HashPair;
    next := [];
    var i := 0;
    while i < |level|
      invariant i == 2 * |next| && i <= |level| + 1
      invariant next == Up(blake, level)[..|next|]
    {
      UpAt(blake, level, |next|);
      var r := if i + 1 < |level| then level[i + 1] else level[i];
      next := next + [HashPair(blake, level[i], r)];
      i := i + 2;
    }
  }

  /** `fold_levels`: exactly `rounds` rounds, carrying a lone node by hashing it with itself. */
  method FoldLevels(blake: Hash, batch: Level, rounds: nat) returns (node: Digest)
    requires batch != []
    ensures node == Rounds(blake, batch, rounds)[0]
  {
    hide Up;
    var level := batch;
    for k := 0 to rounds
      invariant level == Rounds(blake, batch, k)
    {
      level := NextLevel(blake, level);
    }
    node := level[0];
  }

  method MerkleRoot(blake: Hash, leaves: Level) returns (root: Digest)
    requires leaves != []
    ensures root == Root(blake, leaves)
  {
    hide Up;
    var level := leaves;
    ghost var k := 0;
    while |level| > 1
      invariant k <= Height(|leaves|)
      invariant level == Rounds(blake, leaves, k)
      decreases |level|
    {
      HeightIsFirst(|leaves|, k);
      level := NextLevel(blake, level);
      k := k + 1;
    }
    HeightIsFirst(|leaves|, k);
    root := level[0];
  }

  method MerkleProof(blake: Hash, leaves: Level, index: nat) returns (path: seq<Digest>)
    requires index < |leaves|
    ensures path == Path(blake, leaves, index)
  {
    hide Up, Path, Partner;
    path := [];
    var level := leaves;
    var idx := index;
    while |level| > 1
      invariant |path| <= Height(|leaves|)
      invariant level == Rounds(blake, leaves, |path|)
      invariant idx == Shr(index, |path|) < |level|
      invariant path == Path(blake, leaves, index)[..|path|]
      decreases |level|
    {
      HeightIsFirst(|leaves|, |path|);
      ShrBelowCount(index, |leaves|, |path| + 1);
      PathAt(blake, leaves, index, |path|);
      path := path + [Partner(level, idx)];
      level := NextLevel(blake, level);
      idx := idx / 2;
    }
    HeightIsFirst(|leaves|, |path|);
  }

  method VerifyMerkle(blake: Hash, leaf: Digest, index: nat, path: seq<Digest>, root: Digest) returns (ok: bool)
    ensures ok <==> Climb(blake, leaf, index, path) == root
  {
    hide HashPair;
    var acc := leaf;
    var idx := index;
    for k := 0 to |path|
      invariant idx == Shr(index, k)
      invariant acc == Climb(blake, leaf, index, path[..k])
    {
      assert path[..k + 1][..k] == path[..k];
      acc := if idx % 2 == 0 then HashPair(blake, acc, path[k]) else HashPair(blake, path[k], acc);
      idx := idx / 2;
    }
    assert path[..|path|] == path;
    ok := acc == root;
  }
}
