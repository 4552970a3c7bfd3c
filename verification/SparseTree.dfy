/** The checkpoint file: which levels are stored and where, and the streaming build that writes
    them. Offsets are in bytes, 32 per node; the file is a sequence of nodes. */
module SparseTree {
  import opened Hashing
  import opened Pow
  import opened Merkle
  import opened MerkleOps
  import opened Layout
  import opened Tiles
  import opened Wrappers

  const CHECKPOINT_INTERVAL: nat := 6

  datatype StoredLevel = StoredLevel(level: nat, offset: nat, count: nat)

  // ---- layout ----

  function CheckpointCount(n: nat): (c: nat)
    requires n >= 1
    ensures c >= 1
  {
    if Height(n) == 0 then 1 else (Height(n) + 5) / 6
  }

  /** Levels 6, 12, ... below the root, then the root. */
  function CheckpointLevel(n: nat, i: nat): (level: nat)
    requires n >= 1
    ensures level <= Height(n)
  {
    if 6 * (i + 1) <= Height(n) then 6 * (i + 1) else Height(n)
  }

  function CheckpointOffset(n: nat, i: nat): (offset: nat)
    requires n >= 1
    ensures offset % 32 == 0
  {
    if i == 0 then 0 else CheckpointOffset(n, i - 1) + 32 * CountAt(n, CheckpointLevel(n, i - 1))
  }

  function Checkpoint(n: nat, i: nat): StoredLevel
    requires n >= 1
  {
    StoredLevel(CheckpointLevel(n, i), CheckpointOffset(n, i), CountAt(n, CheckpointLevel(n, i)))
  }

  predicate IsLayout(n: nat, cps: seq<StoredLevel>) {
    && n >= 1
    && |cps| == CheckpointCount(n)
    && forall i :: 0 <= i < |cps| ==> cps[i] == Checkpoint(n, i)
  }

  /** Checkpoints strictly below `level`. */
  function StoredBelow(level: nat): nat {
    if level == 0 then 0 else (level - 1) / 6
  }

  method ComputeCheckpointOffsets(nChunks: nat) returns (cps: seq<StoredLevel>, totalLevels: nat)
    requires nChunks >= 1
    ensures IsLayout(nChunks, cps)
    ensures totalLevels == Height(nChunks) + 1
  {
    hide CheckpointOffset;
    cps := [];
    var count, off, level := nChunks, 0, 0;
    assert CheckpointOffset(nChunks, 0) == 0 by { OffsetStart(nChunks); }
    while true
      invariant level <= Height(nChunks)
      invariant count == CountAt(nChunks, level)
      invariant |cps| == StoredBelow(level)
      invariant off == CheckpointOffset(nChunks, |cps|)
      invariant forall i :: 0 <= i < |cps| ==> cps[i] == Checkpoint(nChunks, i)
      decreases Height(nChunks) - level
    {
      HeightIsFirst(nChunks, level);
      var isCheckpoint := (level > 0 && level % CHECKPOINT_INTERVAL == 0) || count == 1;
      if isCheckpoint {
        LevelHere(nChunks, level);
        cps := cps + [StoredLevel(level, off, count)];
      }
      if count == 1 {
        break;
      }
      if isCheckpoint {
        OffsetNext(nChunks, |cps| - 1);
        off := off + count * 32;
      }
      count := (count + 1) / 2;
      level := level + 1;
    }
    totalLevels := level + 1;
  }

  lemma OffsetStart(n: nat)
    requires n >= 1
    ensures CheckpointOffset(n, 0) == 0
  {}

  lemma OffsetNext(n: nat, i: nat)
    requires n >= 1
    ensures CheckpointOffset(n, i + 1) == CheckpointOffset(n, i) + 32 * CountAt(n, CheckpointLevel(n, i))
  {}

  lemma LevelHere(n: nat, level: nat)
    requires n >= 1 && level <= Height(n)
    requires (level > 0 && level % 6 == 0) || level == Height(n)
    ensures CheckpointLevel(n, StoredBelow(level)) == level
  {}

  // ---- contents ----

  /** The nodes of the first `i` stored levels, one level after another. */
  ghost function StoredNodes(blake: Hash, leaves: Level, i: nat): (nodes: seq<Digest>)
    requires leaves != []
    ensures 32 * |nodes| == CheckpointOffset(|leaves|, i)
  {
    if i == 0 then []
    else StoredNodes(blake, leaves, i - 1) + Rounds(blake, leaves, CheckpointLevel(|leaves|, i - 1))
  }

  function ReadNode(file: seq<Digest>, offset: nat): Digest
    requires offset % 32 == 0 && offset / 32 < |file|
  {
    file[offset / 32]
  }

  lemma {:induction false} StoredPrefix(blake: Hash, leaves: Level, i: nat, j: nat)
    requires leaves != [] && i <= j
    ensures StoredNodes(blake, leaves, i) <= StoredNodes(blake, leaves, j)
  {
    hide Rounds, CheckpointOffset;
    if i < j { StoredPrefix(blake, leaves, i, j - 1); }
  }

  /** Node `t` of stored level `i` is read where the layout says. */
  lemma StoredAt(blake: Hash, leaves: Level, file: seq<Digest>, i: nat, t: nat)
    requires leaves != []
    requires StoredNodes(blake, leaves, i + 1) <= file
    requires t < CountAt(|leaves|, CheckpointLevel(|leaves|, i))
    ensures var at := CheckpointOffset(|leaves|, i) + t * 32;
      && at % 32 == 0 && at / 32 < |file|
      && ReadNode(file, at) == Rounds(blake, leaves, CheckpointLevel(|leaves|, i))[t]
  {
    hide Rounds, CheckpointOffset;
    var before := StoredNodes(blake, leaves, i);
    assert file[|before| + t] == StoredNodes(blake, leaves, i + 1)[|before| + t];
  }

  // ---- higher checkpoints ----

  /** Bytes `offset..` of the file hold `nodes`. */
  ghost predicate Holds(file: seq<Digest>, offset: nat, nodes: seq<Digest>) {
    && offset % 32 == 0
    && offset / 32 + |nodes| <= |file|
    && file[offset / 32..offset / 32 + |nodes|] == nodes
  }

  method ReadBatch(file: seq<Digest>, offset: nat, from: nat, take: nat, ghost nodes: seq<Digest>) returns (batch: seq<Digest>)
    requires Holds(file, offset, nodes) && from + take <= |nodes|
    ensures batch == nodes[from..from + take]
  {
    batch := [];
    for i := 0 to take
      invariant batch == nodes[from..from + i]
    {
      var node := ReadNode(file, offset + (from + i) * 32);
      assert node == nodes[from + i];
      batch := batch + [node];
    }
  }

  /** Source nodes consumed by the first `j` batches. */
  function BatchLow(n: nat, rounds: nat, j: nat): (lo: nat)
    ensures lo <= n
  {
    if j * Pow2(rounds) <= n then j * Pow2(rounds) else n
  }

  lemma BatchLowBounds(n: nat, rounds: nat, j: nat)
    requires n >= 1 && j <= CountAt(n, rounds)
    ensures BatchLow(n, rounds, 0) == 0
    ensures BatchLow(n, rounds, j) < n <==> j < CountAt(n, rounds)
  {
    var p, c := Pow2(rounds), CountAt(n, rounds);
    CountIsCeil(n, rounds);
    if j < c { Scale(j, c - 1, p); } else { Scale(c, j, p); }
  }

  lemma BatchLowNext(n: nat, rounds: nat, j: nat)
    requires n >= 1 && j < CountAt(n, rounds)
    ensures BatchLow(n, rounds, j) == j * Pow2(rounds)
    ensures var left := n - BatchLow(n, rounds, j);
      BatchLow(n, rounds, j + 1) == BatchLow(n, rounds, j) + if Pow2(rounds) <= left then Pow2(rounds) else left
  {
    hide Pow2, CountAt;
    BatchLowBounds(n, rounds, j);
    assert (j + 1) * Pow2(rounds) == j * Pow2(rounds) + Pow2(rounds);
  }

  lemma BatchIsSlice(level: Level, rounds: nat, j: nat)
    requires level != [] && j < CountAt(|level|, rounds)
    ensures j * Pow2(rounds) <= |level|
    ensures BatchLow(|level|, rounds, j) <= BatchLow(|level|, rounds, j + 1)
    ensures Batch(level, j, rounds) == level[BatchLow(|level|, rounds, j)..BatchLow(|level|, rounds, j + 1)]
  {
    hide Pow2, CountAt;
    BatchLowNext(|level|, rounds, j);
  }

  /** Fold a stored level by `rounds`, batch by batch. */
  method FoldStoredLevel(blake: Hash, file: seq<Digest>, prevOffset: nat, prevCount: nat, rounds: nat, ghost prev: Level)
    returns (parents: seq<Digest>)
    requires Holds(file, prevOffset, prev) && |prev| == prevCount >= 1
    ensures parents == Rounds(blake, prev, rounds)
  {
    hide Rounds, Holds, BatchLow, Batch, CountAt, Pow2;
    parents := [];
    var batchSize := Pow2(rounds);
    var readIdx := 0;
    BatchLowBounds(prevCount, rounds, 0);
    while readIdx < prevCount
      invariant |parents| <= CountAt(prevCount, rounds)
      invariant readIdx == BatchLow(prevCount, rounds, |parents|)
      invariant parents == Rounds(blake, prev, rounds)[..|parents|]
    {
      ghost var j := |parents|;
      BatchLowBounds(prevCount, rounds, j);
      BatchLowNext(prevCount, rounds, j);
      BatchIsSlice(prev, rounds, j);
      BatchFold(blake, prev, j, rounds);
      var take := if batchSize <= prevCount - readIdx then batchSize else prevCount - readIdx;
      var batch := ReadBatch(file, prevOffset, readIdx, take, prev);
      var parent := FoldLevels(blake, batch, rounds);
      parents := parents + [parent];
      readIdx := readIdx + take;
    }
    BatchLowBounds(prevCount, rounds, |parents|);
  }

  lemma HeightAbove5(n: nat)
    requires n >= 1
    ensures Height(n) > 5 <==> n > 32
  {
    assert Pow2(5) == 32;
    HeightIsFirst(n, 5);
    CountIsCeil(n, 5);
  }

  lemma StoredHolds(blake: Hash, leaves: Level, i: nat)
    requires leaves != []
    ensures var n := |leaves|;
      Holds(StoredNodes(blake, leaves, i + 1), CheckpointOffset(n, i), Rounds(blake, leaves, CheckpointLevel(n, i)))
  {
    hide Rounds, CheckpointOffset, CheckpointLevel;
    SuffixSlice(StoredNodes(blake, leaves, i), Rounds(blake, leaves, CheckpointLevel(|leaves|, i)));
  }

  lemma SuffixSlice<T>(a: seq<T>, b: seq<T>)
    ensures (a + b)[|a|..|a| + |b|] == b
  {}

  /** The levels above level 6, each folded from the stored level below it. */
  method FinalizeCheckpointUpper(blake: Hash, level6: seq<Digest>, nChunks: nat, ghost leaves: Level)
    returns (file: seq<Digest>, cps: seq<StoredLevel>, totalLevels: nat, root: Digest)
    requires |leaves| == nChunks >= 1
    requires level6 != []
    requires nChunks > 32 ==> level6 == Rounds(blake, leaves, 6)
    ensures IsLayout(nChunks, cps) && totalLevels == Height(nChunks) + 1
    ensures nChunks > 32 ==> file == StoredNodes(blake, leaves, CheckpointCount(nChunks))
    ensures nChunks > 32 ==> root == Root(blake, leaves)
    ensures nChunks <= 32 ==> file == level6 && root == level6[0]
  {
    hide Rounds, CheckpointOffset, StoredNodes, Holds;
    cps, totalLevels := ComputeCheckpointOffsets(nChunks);
    file := level6;
    HeightAbove5(nChunks);
    if nChunks > 32 { FirstStored(blake, leaves); }
    for i := 1 to |cps|
      invariant nChunks > 32 ==> file == StoredNodes(blake, leaves, i)
      invariant nChunks <= 32 ==> file == level6
    {
      var prev, cp := cps[i - 1], cps[i];
      LevelsAscend(nChunks, i);
      StoredHolds(blake, leaves, i - 1);
      var parents := FoldStoredLevel(blake, file, prev.offset, prev.count, cp.level - prev.level,
                                     Rounds(blake, leaves, prev.level));
      RoundsAdd(blake, leaves, prev.level, cp.level - prev.level);
      StoredGrows(blake, leaves, i);
      file := file + parents;
    }
    var rootCp := cps[|cps| - 1];
    OffsetStart(nChunks);
    if nChunks > 32 {
      LastLevel(nChunks);
      RootIsShr(nChunks, 0);
      StoredAt(blake, leaves, file, |cps| - 1, 0);
    }
    root := ReadNode(file, rootCp.offset);
  }

  lemma LevelsAscend(n: nat, i: nat)
    requires n >= 1 && 1 <= i < CheckpointCount(n)
    ensures CheckpointLevel(n, i - 1) < CheckpointLevel(n, i)
    ensures n > 32
  {
    HeightAbove5(n);
  }

  lemma LastLevel(n: nat)
    requires n >= 1
    ensures CheckpointLevel(n, CheckpointCount(n) - 1) == Height(n)
  {}

  lemma StoredGrows(blake: Hash, leaves: Level, i: nat)
    requires leaves != []
    ensures StoredNodes(blake, leaves, i + 1)
         == StoredNodes(blake, leaves, i) + Rounds(blake, leaves, CheckpointLevel(|leaves|, i))
  {}

  lemma FirstStored(blake: Hash, leaves: Level)
    requires |leaves| > 32
    ensures StoredNodes(blake, leaves, 1) == Rounds(blake, leaves, 6)
  {
    hide Rounds;
    HeightAbove5(|leaves|);
    StoredGrows(blake, leaves, 0);
  }

  // ---- streaming build ----

  ghost predicate WrittenOk(blake: Hash, leaves: Level, written: seq<Digest>) {
    && 64 * |written| <= |leaves|
    && forall j :: 0 <= j < |written| ==> [written[j]] == Rounds(blake, leaves[64 * j..64 * j + 64], 6)
  }

  /** Full batches of 64 leaves are on disk as level-6 nodes, the rest is in the buffer. */
  ghost predicate Streamed(blake: Hash, seen: seq<Bytes32>, written: seq<Digest>, batch: Level) {
    && |batch| < 64
    && |seen| == 64 * |written| + |batch|
    && batch == Leaves(blake, seen)[64 * |written|..]
    && WrittenOk(blake, Leaves(blake, seen), written)
  }

  lemma LeavesPush(blake: Hash, seen: seq<Bytes32>, c: Bytes32)
    ensures Leaves(blake, seen + [c]) == Leaves(blake, seen) + [blake(c)]
  {}

  lemma WrittenKept(blake: Hash, leaves: Level, more: Level, written: seq<Digest>)
    requires WrittenOk(blake, leaves, written)
    ensures WrittenOk(blake, leaves + more, written)
  {
    hide Rounds;
    forall j | 0 <= j < |written|
      ensures [written[j]] == Rounds(blake, (leaves + more)[64 * j..64 * j + 64], 6)
    {
      assert (leaves + more)[64 * j..64 * j + 64] == leaves[64 * j..64 * j + 64];
    }
  }

  lemma FullBatchCollapses(blake: Hash, batch: Level)
    requires 1 <= |batch| <= 64
    ensures |Rounds(blake, batch, 6)| == 1
  {
    assert Pow2(6) == 64;
    CountIsCeil(|batch|, 6);
  }

  method AbsorbChunk(blake: Hash, written: seq<Digest>, batch: Level, chunk: Bytes32, ghost seen: seq<Bytes32>)
    returns (written': seq<Digest>, batch': Level)
    requires Streamed(blake, seen, written, batch)
    ensures Streamed(blake, seen + [chunk], written', batch')
  {
    hide Rounds, Leaves, WrittenOk;
    LeavesPush(blake, seen, chunk);
    WrittenKept(blake, Leaves(blake, seen), [blake(chunk)], written);
    written', batch' := written, batch + [blake(chunk)];
    if |batch'| == 64 {
      var node := FoldLevels(blake, batch', 6);
      FullBatchCollapses(blake, batch');
      assert batch' == Leaves(blake, seen + [chunk])[64 * |written|..64 * |written| + 64];
      WrittenPush(blake, Leaves(blake, seen + [chunk]), written, node);
      written', batch' := written + [node], [];
    }
  }

  lemma WrittenPush(blake: Hash, leaves: Level, written: seq<Digest>, node: Digest)
    requires WrittenOk(blake, leaves, written)
    requires 64 * |written| + 64 <= |leaves|
    requires [node] == Rounds(blake, leaves[64 * |written|..64 * |written| + 64], 6)
    ensures WrittenOk(blake, leaves, written + [node])
  {
    hide Rounds;
  }

  /** Once the last partial batch is folded too, the file holds level 6 of the dense tree. */
  lemma StreamedIsLevel6(blake: Hash, seen: seq<Bytes32>, written: seq<Digest>, batch: Level, all: seq<Digest>)
    requires Streamed(blake, seen, written, batch) && seen != []
    requires batch == [] ==> all == written
    requires batch != [] ==> all == written + [Rounds(blake, batch, 6)[0]]
    ensures all == Rounds(blake, Leaves(blake, seen), 6)
  {
    hide Rounds, Leaves, CountAt;
    var leaves := Leaves(blake, seen);
    assert Pow2(6) == 64;
    CountIsCeil(|leaves|, 6);
    forall j | 0 <= j < |all|
      ensures all[j] == Rounds(blake, leaves, 6)[j]
    {
      Level6At(blake, leaves, j);
      if j < |written| {
        assert [written[j]] == Rounds(blake, leaves[64 * j..64 * j + 64], 6);
      } else {
        assert leaves[64 * j..] == batch;
      }
    }
  }

  lemma Level6At(blake: Hash, leaves: Level, j: nat)
    requires j < CountAt(|leaves|, 6)
    ensures 64 * j < |leaves|
    ensures 64 * j + 64 <= |leaves| ==> Rounds(blake, leaves[64 * j..64 * j + 64], 6) == [Rounds(blake, leaves, 6)[j]]
    ensures 64 * j + 64 > |leaves| ==> Rounds(blake, leaves[64 * j..], 6) == [Rounds(blake, leaves, 6)[j]]
  {
    hide Rounds, CountAt, Batch, Pow2;
    BatchStarts(leaves, j, 6);
    BatchFold(blake, leaves, j, 6);
    BatchOf64(leaves, j);
  }

  lemma BatchOf64(leaves: Level, j: nat)
    requires j * Pow2(6) < |leaves|
    ensures 64 * j < |leaves|
    ensures Batch(leaves, j, 6) == if 64 * j + 64 <= |leaves| then leaves[64 * j..64 * j + 64] else leaves[64 * j..]
  {
    assert Pow2(6) == 64;
  }

  /** Everything a build hands to the index. */
  datatype Built = Built(nChunks: nat, table: seq<Start>, file: seq<Digest>, checkpoints: seq<StoredLevel>,
                         totalLevels: nat, root: Digest)

  /** The index built over `chunks`: the right layout, and for more than 32 chunks the dense tree's
      own nodes at every stored level and its root. At 32 or fewer chunks the first fold runs past
      the root. */
  ghost predicate BuiltFrom(blake: Hash, chunks: seq<Bytes32>, b: Built) {
    && b.nChunks == |chunks| >= 1
    && IsLayout(|chunks|, b.checkpoints)
    && b.totalLevels == Height(|chunks|) + 1
    && b.root == SparseRoot(blake, Leaves(blake, chunks))
    && (|chunks| > 32 ==> b.file == StoredNodes(blake, Leaves(blake, chunks), CheckpointCount(|chunks|)))
    && (|chunks| > 32 ==> b.root == Root(blake, Leaves(blake, chunks)))
  }

  /** The root the sparse build ends with: at least six rounds, whatever the height. */
  function SparseRoot(blake: Hash, leaves: Level): Digest
    requires leaves != []
  {
    Rounds(blake, leaves, if Height(|leaves|) <= 6 then 6 else Height(|leaves|))[0]
  }

  const SLAB_CHUNKS: nat := 0x1_0000

  /** `build_from_gguf` from the tensor list on: one pass over the file in bounded slabs. */
  method BuildFromGguf(blake: Hash, file: seq<Byte>, tensors: seq<Tensor>) returns (r: Result<Built>)
    ensures r.Ok? <==> AllInFile(file, tensors) && CanonicalChunks(file, tensors) != []
    ensures r.Ok? ==> BuiltFrom(blake, CanonicalChunks(file, tensors), r.value)
    ensures r.Ok? ==> r.value.table == StartTable(tensors)
  {
    hide Streamed, Rounds, Leaves, TensorChunks, CanonicalChunks, StartTable, CountChunks;
    var written, batch, table, nChunks := [], [], [], 0;
    ghost var seen: seq<Bytes32> := [];
    StreamStart(blake, file);
    for t := 0 to |tensors|
      invariant AllInFile(file, tensors[..t])
      invariant seen == CanonicalChunks(file, tensors[..t])
      invariant table == StartTable(tensors[..t])
      invariant nChunks == |seen| == CountChunks(tensors[..t])
      invariant Streamed(blake, seen, written, batch)
    {
      var tensor := tensors[t];
      var full := tensor.nbytes / 32;
      if !InFile(file, tensor) {
        return Err;
      }
      LayoutStep(file, tensors, t);
      if full > 0 {
        table := table + [Start(nChunks, tensor.fileOff)];
      }
      written, batch, seen := AbsorbTensor(blake, file, tensor, written, batch, seen);
      nChunks := nChunks + full;
    }
    assert tensors[..|tensors|] == tensors;
    if nChunks == 0 {
      return Err;
    }
    ghost var buffered := written;
    if batch != [] {
      var node := FoldLevels(blake, batch, 6);
      written := written + [node];
    }
    StreamedIsLevel6(blake, seen, buffered, batch, written);
    ghost var leaves := Leaves(blake, seen);
    var tree, cps, total, root := FinalizeCheckpointUpper(blake, written, nChunks, leaves);
    SparseRootIs(blake, leaves);
    r := Ok(Built(nChunks, table, tree, cps, total, root));
  }

  lemma SparseRootIs(blake: Hash, leaves: Level)
    requires leaves != []
    ensures |leaves| > 32 ==> SparseRoot(blake, leaves) == Root(blake, leaves)
    ensures |leaves| <= 32 ==> SparseRoot(blake, leaves) == Rounds(blake, leaves, 6)[0]
  {
    hide Rounds;
    HeightAbove5(|leaves|);
  }

  lemma StreamStart(blake: Hash, file: seq<Byte>)
    ensures AllInFile(file, []) && CanonicalChunks(file, []) == []
    ensures StartTable([]) == [] && CountChunks([]) == 0
    ensures Streamed(blake, [], [], [])
  {}

  lemma LayoutStep(file: seq<Byte>, tensors: seq<Tensor>, t: nat)
    requires t < |tensors| && AllInFile(file, tensors[..t]) && InFile(file, tensors[t])
    ensures AllInFile(file, tensors[..t + 1])
    ensures CanonicalChunks(file, tensors[..t + 1])
         == CanonicalChunks(file, tensors[..t]) + TensorChunks(file, tensors[t])
    ensures StartTable(tensors[..t + 1])
         == StartTable(tensors[..t])
            + if FullChunks(tensors[t]) > 0 then [Start(CountChunks(tensors[..t]), tensors[t].fileOff)] else []
    ensures CountChunks(tensors[..t + 1]) == CountChunks(tensors[..t]) + FullChunks(tensors[t])
  {
    hide TensorChunks, FullChunks;
    assert tensors[..t + 1][..t] == tensors[..t];
  }

  method AbsorbTensor(blake: Hash, file: seq<Byte>, tensor: Tensor, written: seq<Digest>, batch: Level, ghost seen: seq<Bytes32>)
    returns (written': seq<Digest>, batch': Level, ghost seen': seq<Bytes32>)
    requires InFile(file, tensor) && Streamed(blake, seen, written, batch)
    ensures Streamed(blake, seen', written', batch')
    ensures seen' == seen + TensorChunks(file, tensor)
  {
    hide Streamed;
    written', batch', seen' := written, batch, seen;
    var full := tensor.nbytes / 32;
    var done := 0;
    while done < full
      invariant done <= full
      invariant Streamed(blake, seen', written', batch')
      invariant seen' == seen + TensorChunks(file, tensor)[..done]
    {
      var take := if SLAB_CHUNKS <= full - done then SLAB_CHUNKS else full - done;
      var slab := file[tensor.fileOff + done * 32..tensor.fileOff + done * 32 + take * 32];
      for c := 0 to take
        invariant Streamed(blake, seen', written', batch')
        invariant seen' == seen + TensorChunks(file, tensor)[..done + c]
      {
        SlabChunk(file, tensor, done, take, c);
        var chunk: Bytes32 := slab[c * 32..c * 32 + 32];
        written', batch' := AbsorbChunk(blake, written', batch', chunk, seen');
        seen' := seen' + [chunk];
      }
      done := done + take;
    }
  }

  lemma SlabChunk(file: seq<Byte>, tensor: Tensor, done: nat, take: nat, c: nat)
    requires InFile(file, tensor) && done + take <= FullChunks(tensor) && c < take
    ensures tensor.fileOff + done * 32 + take * 32 <= |file|
    ensures file[tensor.fileOff + done * 32..tensor.fileOff + done * 32 + take * 32][c * 32..c * 32 + 32]
         == TensorChunks(file, tensor)[done + c]
  {
    var at := tensor.fileOff + done * 32;
    SliceOfSlice(file, at, at + take * 32, c * 32, c * 32 + 32);
  }

  // ---- exactly when the sparse root is the dense root ----

  /** A hash that counts how often it was applied: the witness that six rounds are not five. */
  function CountingHash(s: seq<Byte>): Digest {
    var first: int := if |s| == 64 then s[0] else 255;
    Digest([(first + 1) % 256] + seq(31, _ => 0))
  }

  lemma {:induction false} CountingRounds(level: Level, k: nat)
    requires level != [] && level[0].bytes[0] == 0 && k < 256
    ensures Rounds(CountingHash, level, k)[0].bytes[0] == k
  {
    hide Up;
    if k > 0 {
      CountingRounds(level, k - 1);
      var below := Rounds(CountingHash, level, k - 1);
      UpAt(CountingHash, below, 0);
    }
  }

  /** The sparse build pins the dense root for every hash and every leaves if and only if there are
      more than 32 chunks. */
  lemma SparseRootExact(n: nat)
    requires n >= 1
    ensures (forall blake: Hash, leaves: Level | |leaves| == n :: SparseRoot(blake, leaves) == Root(blake, leaves))
       <==> n > 32
  {
    hide Rounds, Height, CountingHash, SparseRoot, Root;
    forall blake: Hash, leaves: Level | |leaves| == n && n > 32
      ensures SparseRoot(blake, leaves) == Root(blake, leaves)
    {
      SparseRootIs(blake, leaves);
    }
    if n <= 32 {
      var leaves := seq(n, _ => CountingHash([]));
      CountingLeaf();
      SmallRootsDiffer(leaves);
    }
  }

  lemma CountingLeaf()
    ensures CountingHash([]).bytes[0] == 0
  {}

  lemma SmallRootsDiffer(leaves: Level)
    requires 1 <= |leaves| <= 32 && leaves[0].bytes[0] == 0
    ensures SparseRoot(CountingHash, leaves) != Root(CountingHash, leaves)
  {
    hide Rounds;
    HeightAbove5(|leaves|);
    CountingRounds(leaves, 6);
    CountingRounds(leaves, Height(|leaves|));
  }
}
