/** The possession index: chunk reads, and inclusion paths from a file that stores every sixth
    level, an optional dense tree, and a memo of upper siblings. */
module WeightIndex {
  import opened Hashing
  import opened Pow
  import opened Merkle
  import opened MerkleOps
  import opened Layout
  import opened SparseTree
  import opened Wrappers

  /** `i ^ 1`. */
  function Twin(i: nat): nat {
    if i % 2 == 0 then i + 1 else i - 1
  }

  datatype MemoKey = MemoKey(level: nat, sibling: nat)

  class Index {
    const blake: Hash
    const gguf: seq<Byte>
    const table: seq<Start>
    const nChunks: nat
    const rT: Digest
    const treeFile: seq<Digest>
    const checkpoints: seq<StoredLevel>
    const totalLevels: nat
    /** `KERYX_POM_PATH_MEMO` and `KERYX_POM_PATH_MEMO_MAX`. */
    const memoEnabled: bool
    const memoMaxNodes: nat
    var dense: Option<seq<Level>>
    var siblingMemo: map<MemoKey, Digest>
    /** The canonical chunks of the tensors the index was built from. */
    ghost const chunks: seq<Bytes32>

    ghost function LeafLevel(): (leaves: Level)
      ensures |leaves| == |chunks|
    {
      Leaves(blake, chunks)
    }

    /** What never changes: the file, the layout and the chunk table are those of a build. */
    ghost predicate Built() {
      && BuiltFrom(blake, chunks, SparseTree.Built(nChunks, table, treeFile, checkpoints, totalLevels, rT))
      && forall off :: 0 <= off < nChunks ==> Finds(gguf, table, off, chunks[off])
    }

    /** Each memo entry is the true sibling for its key. */
    ghost predicate MemoOk()
      reads this`siblingMemo
    {
      forall key :: key in siblingMemo ==> SiblingOk(key, siblingMemo[key])
    }

    ghost predicate SiblingOk(key: MemoKey, node: Digest) {
      && Twin(key.sibling) < CountAt(|chunks|, key.level)
      && node == Partner(Rounds(blake, LeafLevel(), key.level), Twin(key.sibling))
    }

    ghost predicate DenseOk()
      reads this`dense
    {
      dense.Some? ==>
        && |chunks| >= 1
        && |dense.value| == Height(|chunks|) + 1
        && forall k :: 0 <= k < |dense.value| ==> dense.value[k] == Rounds(blake, LeafLevel(), k)
    }

    ghost predicate Valid()
      reads this
    {
      Built() && MemoOk() && DenseOk()
    }

    constructor (blake: Hash, gguf: seq<Byte>, tensors: seq<Tensor>, b: SparseTree.Built, memoEnabled: bool, memoMaxNodes: nat)
      requires AllInFile(gguf, tensors)
      requires BuiltFrom(blake, CanonicalChunks(gguf, tensors), b) && b.table == StartTable(tensors)
      ensures Valid()
      ensures this.blake == blake && chunks == CanonicalChunks(gguf, tensors)
      ensures dense.None? && siblingMemo == map[]
    {
      this.blake, this.gguf, table, nChunks, rT := blake, gguf, b.table, b.nChunks, b.root;
      treeFile, checkpoints, totalLevels := b.file, b.checkpoints, b.totalLevels;
      this.memoEnabled, this.memoMaxNodes := memoEnabled, memoMaxNodes;
      dense, siblingMemo := None, map[];
      chunks := CanonicalChunks(gguf, tensors);
      new;
      forall off | 0 <= off < nChunks
        ensures Finds(gguf, table, off, chunks[off])
      {
        TableFindsChunk(gguf, tensors, off);
      }
    }

    method ReadChunkBytes(off: nat) returns (chunk: Bytes32)
      requires Built() && off < nChunks
      ensures off < |chunks| && chunk == chunks[off]
    {
      hide RowsUpTo;
      assert Finds(gguf, table, off, chunks[off]);
      var row := table[RowsUpTo(table, off) - 1];
      chunk := ChunkAt(gguf, row.fileOff + (off - row.first) * 32);
    }

    /** The levels the file holds: every sixth below the root, and the root. */
    ghost predicate IsStored(level: nat) {
      |chunks| >= 1 && (level == Height(|chunks|) || (level % 6 == 0 && 0 < level < Height(|chunks|)))
    }

    ghost function StoredIndex(level: nat): nat
      requires IsStored(level)
    {
      if level == Height(|chunks|) then CheckpointCount(|chunks|) - 1 else level / 6 - 1
    }

    /** `find_checkpoint`: the first entry of that level is the only one. */
    method FindCheckpoint(level: nat) returns (cp: StoredLevel)
      requires Built() && IsStored(level)
      ensures StoredIndex(level) < |checkpoints| && cp == Checkpoint(|chunks|, StoredIndex(level)) && cp.level == level
    {
      LastLevel(|chunks|);
      var i := 0;
      while checkpoints[i].level != level
        invariant 0 <= i <= StoredIndex(level) < |checkpoints|
        decreases StoredIndex(level) - i
      {
        i := i + 1;
      }
      cp := checkpoints[i];
    }
  
    /** The nodes `start..end` of a source level: hashed chunks, or a stored checkpoint. */
    method SourceNodes(srcLevel: nat, start: nat, end: nat) returns (nodes: Level)
      requires Built() && IsSource(srcLevel) && start <= end <= CountAt(|chunks|, srcLevel)
      ensures nodes == Rounds(blake, LeafLevel(), srcLevel)[start..end]
    {
      hide Rounds, Finds, CheckpointOffset, StoredNodes;
      nodes := [];
      ghost var level := Rounds(blake, LeafLevel(), srcLevel);
      if srcLevel == 0 {
        LevelZero(blake, LeafLevel());
        for i := start to end
          invariant nodes == level[start..i]
        {
          var chunk := ReadChunkBytes(i);
          assert level[i] == blake(chunk);
          nodes := nodes + [blake(chunk)];
        }
      } else {
        var cp := FindCheckpoint(srcLevel);
        for i := start to end
          invariant nodes == level[start..i]
        {
          FileNode(srcLevel, i);
          nodes := nodes + [ReadNode(treeFile, cp.offset + i * 32)];
        }
      }
    }

    ghost predicate IsSource(level: nat)
    {
      |chunks| >= 1 && (level == 0 || (level % 6 == 0 && level < Height(|chunks|)))
    }

    /** A stored level below the root is read back node by node. */
    lemma FileNode(level: nat, t: nat)
      requires Built() && IsSource(level) && level > 0 && t < CountAt(|chunks|, level)
      ensures var at := CheckpointOffset(|chunks|, level / 6 - 1) + t * 32;
        && at % 32 == 0 && at / 32 < |treeFile|
        && ReadNode(treeFile, at) == Rounds(blake, LeafLevel(), level)[t]
    {
      hide Rounds, CheckpointOffset, StoredNodes, Finds, Leaves, ReadNode;
      HeightAbove5(|chunks|);
      StoredPrefix(blake, LeafLevel(), level / 6, CheckpointCount(|chunks|));
      StoredAt(blake, LeafLevel(), treeFile, level / 6 - 1, t);
    }

    /** `compute_subtree_hash`: the node above `span` source nodes, short at the right edge. */
    method ComputeSubtreeHash(start: nat, span: nat, srcLevel: nat, ghost j: nat, ghost rounds: nat) returns (node: Digest)
      requires Built() && IsSource(srcLevel)
      requires span == Pow2(rounds) && start == j * span
      ensures j < CountAt(|chunks|, srcLevel + rounds) ==> node == Rounds(blake, LeafLevel(), srcLevel + rounds)[j]
      ensures j >= CountAt(|chunks|, srcLevel + rounds) ==> node == ZeroDigest()
    {
      hide Rounds, CountAt, Pow2, Built;
      Log2OfPow2(rounds);
      CountAtAdd(|chunks|, srcLevel, rounds);
      ghost var level := Rounds(blake, LeafLevel(), srcLevel);
      RoundsAdd(blake, LeafLevel(), srcLevel, rounds);
      SubtreeInRange(|level|, rounds, j);
      var sourceCount := SourceCount(srcLevel);
      if start >= sourceCount {
        return ZeroDigest();
      }
      var end := if start + span <= sourceCount then start + span else sourceCount;
      var nodes := SourceNodes(srcLevel, start, end);
      BatchFold(blake, level, j, rounds);
      assert nodes == Batch(level, j, rounds);
      node := FoldLevels(blake, nodes, Log2(span));
    }

    method SourceCount(srcLevel: nat) returns (count: nat)
      requires Built() && IsSource(srcLevel)
      ensures count == CountAt(|chunks|, srcLevel)
    {
      if srcLevel == 0 {
        count := nChunks;
      } else {
        var cp := FindCheckpoint(srcLevel);
        count := cp.count;
      }
    }

    method CountAtLevel(level: nat) returns (count: nat)
      requires Built()
      ensures count == CountAt(|chunks|, level)
    {
      count := nChunks;
      for k := 0 to level
        invariant count == CountAt(|chunks|, k)
      {
        count := (count + 1) / 2;
      }
    }

    /** `build_dense`: keep every level in memory from now on. */
    method BuildDense()
      requires Valid()
      modifies this`dense
      ensures Valid() && dense.Some? && siblingMemo == old(siblingMemo)
    {
      hide Rounds, Up, BuiltFrom, Finds;
      if dense.Some? {
        return;
      }
      var n := LeafCount();
      HeightIsFirst(n, 0);
      var leaves := SourceNodes(0, 0, n);
      LevelZero(blake, LeafLevel());
      var levels := [leaves];
      while |levels[|levels| - 1]| > 1
        invariant 1 <= |levels| <= Height(n) + 1
        invariant forall k :: 0 <= k < |levels| ==> levels[k] == Rounds(blake, LeafLevel(), k)
        decreases Height(n) + 1 - |levels|
      {
        HeightIsFirst(n, |levels| - 1);
        var next := NextLevel(blake, levels[|levels| - 1]);
        NextRound(blake, LeafLevel(), |levels| - 1);
        levels := levels + [next];
      }
      HeightIsFirst(n, |levels| - 1);
      dense := Some(levels);
    }

    method LeafCount() returns (n: nat)
      requires Built()
      ensures n == |chunks| == nChunks >= 1 && totalLevels == Height(n) + 1
    {
      n := nChunks;
    }

    /** A sibling from the file, or recomputed from the nearest source below it. */
    method ComputeSibling(level: nat, idx: nat, count: nat) returns (node: Digest)
      requires Built()
      requires level < Height(|chunks|) && idx < count == CountAt(|chunks|, level)
      ensures node == Partner(Rounds(blake, LeafLevel(), level), idx)
    {
      hide Rounds, CountAt, Built;
      var sib := Twin(idx);
      var at := if sib < count then sib else idx;
      if level > 0 && level % CHECKPOINT_INTERVAL == 0 {
        var cp := FindCheckpoint(level);
        FileNode(level, at);
        node := ReadNode(treeFile, cp.offset + at * 32);
      } else {
        var src := level / CHECKPOINT_INTERVAL * CHECKPOINT_INTERVAL;
        var span := Pow2(level - src);
        node := ComputeSubtreeHash(at * span, span, src, at, level - src);
      }
    }

    lemma SiblingOkAt(level: nat, idx: nat, node: Digest)
      requires idx < CountAt(|chunks|, level)
      ensures SiblingOk(MemoKey(level, Twin(idx)), node) <==> node == Partner(Rounds(blake, LeafLevel(), level), idx)
    {
      hide Rounds, CountAt, Partner;
    }

    /** One sibling of `merkle_path`, through the memo. */
    method Sibling(level: nat, idx: nat) returns (node: Digest)
      requires Valid()
      requires level < Height(|chunks|) && idx < CountAt(|chunks|, level)
      modifies this`siblingMemo
      ensures Valid() && dense == old(dense)
      ensures node == Partner(Rounds(blake, LeafLevel(), level), idx)
    {
      hide Rounds, CountAt, Built, Partner, SiblingOk, DenseOk;
      var key := MemoKey(level, Twin(idx));
      var count := CountAtLevel(level);
      var memoize := memoEnabled && count <= memoMaxNodes;
      if memoize && key in siblingMemo {
        SiblingOkAt(level, idx, siblingMemo[key]);
        return siblingMemo[key];
      }
      node := ComputeSibling(level, idx, count);
      SiblingOkAt(level, idx, node);
      if memoize {
        siblingMemo := siblingMemo[key := node];
      }
    }

    /** `merkle_path`: whatever the file, the dense tree and the memo hold, the path of the dense tree. */
    method MerklePath(off: nat) returns (path: seq<Digest>)
      requires Valid() && off < nChunks
      modifies this`siblingMemo
      ensures Valid() && dense == old(dense)
      ensures off < |chunks| && path == Path(blake, LeafLevel(), off)
    {
      hide Rounds, Path, Partner, BuiltFrom, Finds, CountAt;
      var n := LeafCount();
      if dense.Some? {
        path := DensePath(off);
        return;
      }
      path := [];
      var idx := off;
      ShrBelowCount(off, n, 0);
      for level := 0 to totalLevels - 1
        invariant Valid() && dense == old(dense)
        invariant idx == Shr(off, level)
        invariant path == Path(blake, LeafLevel(), off)[..level]
      {
        PathAt(blake, LeafLevel(), off, level);
        var node := Sibling(level, idx);
        path := path + [node];
        idx := idx / 2;
      }
    }

    method DensePath(off: nat) returns (path: seq<Digest>)
      requires Valid() && dense.Some? && off < |chunks|
      ensures path == Path(blake, LeafLevel(), off)
    {
      hide Rounds, Path, Built, CountAt;
      var levels := dense.value;
      path := [];
      var idx := off;
      for k := 0 to |levels| - 1
        invariant idx == Shr(off, k)
        invariant path == Path(blake, LeafLevel(), off)[..k]
      {
        PathAt(blake, LeafLevel(), off, k);
        var level, sib := levels[k], Twin(idx);
        path := path + [if sib < |level| then level[sib] else level[idx]];
        idx := idx / 2;
      }
    }
  }

  /** `trailing_zeros` of a power of two. */
  function Log2(span: nat): nat {
    if span <= 1 then 0 else 1 + Log2(span / 2)
  }

  lemma {:induction false} Log2OfPow2(k: nat)
    ensures Log2(Pow2(k)) == k
  {
    if k > 0 { Log2OfPow2(k - 1); }
  }

  lemma LevelZero(blake: Hash, leaves: Level)
    ensures Rounds(blake, leaves, 0) == leaves
  {}

  /** A subtree starts inside its source exactly when its root is a node of the tree. */
  lemma SubtreeInRange(n: nat, rounds: nat, j: nat)
    requires n >= 1
    ensures j * Pow2(rounds) < n <==> j < CountAt(n, rounds)
  {
    CountIsCeil(n, rounds);
    var p, c := Pow2(rounds), CountAt(n, rounds);
    if j < c { Scale(j, c - 1, p); } else { Scale(c, j, p); }
  }
}
