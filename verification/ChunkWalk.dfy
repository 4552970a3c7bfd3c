/** The chunk-walk proofs: the v2 proof the verifier re-walks in full, and the older v1 proof that
    commits a trace and opens Fiat-Shamir-chosen steps of it. */
module ChunkWalk {
  import opened Hashing
  import opened Words
  import opened Merkle
  import opened MerkleOps
  import opened Matrix
  import opened Target
  import opened Records
  import opened Wrappers
  import WeightIndex

  // ---- primitives ----

  function MixWords(p: Prims, state: U64, words: seq<U64>): U64
    decreases |words|
  {
    if words == [] then state else MixWords(p, p.mix(Xor(state, words[0])), words[1..])
  }

  function XorWords(state: U64, words: seq<U64>): U64
    decreases |words|
  {
    if words == [] then state else XorWords(Xor(state, words[0]), words[1..])
  }

  /** The possession transition of the era: before H5 one mix of the xor, from H5 a chain. */
  function Advance(p: Prims, state: U64, chunk: Bytes32, walkV2: bool): U64 {
    if walkV2 then MixWords(p, state, ChunkToWords(chunk)) else p.mix(XorWords(state, ChunkToWords(chunk)))
  }

  const H3_SALT: seq<U64> := [0x7C99D381176D4EC4, 0xC2E28E3E28118C36, 0xD496CE1B129B76CA, 0x47CF0979FA580BCE]

  function PphWords(pph: Bytes32, h3: bool): (w: seq<U64>)
    ensures |w| == 4
  {
    var w := ChunkToWords(pph);
    if h3 then [Xor(w[0], H3_SALT[0]), Xor(w[1], H3_SALT[1]), Xor(w[2], H3_SALT[2]), Xor(w[3], H3_SALT[3])] else w
  }

  function PowValue(p: Prims, finalState: U64, pph: Bytes32, h3: bool): Bytes32 {
    var w := PphWords(pph, h3);
    var o0 := p.mix(Xor(Xor(finalState, w[0]), 0x9E3779B97F4A7C15));
    var o1 := p.mix(Xor(Xor(o0, w[1]), 0xC2B2AE3D27D4EB4F));
    var o2 := p.mix(Xor(Xor(o1, w[2]), 0x165667B19E3779F9));
    var o3 := p.mix(Xor(Xor(o2, w[3]), 0xD6E8FEB86659FD93));
    ToLe(o0, 8) + ToLe(o1, 8) + ToLe(o2, 8) + ToLe(o3, 8)
  }

  /** State after `k` honest steps over the blob. */
  function Honest(p: Prims, chunks: seq<Bytes32>, seed: U64, walkV2: bool, k: nat): U64
    requires |chunks| >= 1
  {
    if k == 0 then seed
    else
      var s := Honest(p, chunks, seed, walkV2, k - 1);
      Advance(p, s, chunks[s % |chunks|], walkV2)
  }

  /** What a block fixes for its proof. */
  datatype Block = Block(pph: Bytes32, nonce: U64, seed: U64, target: Bytes32, h3: bool, walkV2: bool)

  // ---- v2 ----

  /** State after `k` of the steps a proof shows. */
  function Shown(p: Prims, steps: seq<PomStep>, seed: U64, walkV2: bool, k: nat): U64
    requires k <= |steps|
  {
    if k == 0 then seed else Advance(p, Shown(p, steps, seed, walkV2, k - 1), steps[k - 1].chunk, walkV2)
  }

  predicate StepOpens(p: Prims, steps: seq<PomStep>, b: Block, nChunks: nat, root: Digest, i: nat)
    requires i < |steps| && nChunks >= 1
  {
    Climb(p.blake, p.blake(steps[i].chunk), Shown(p, steps, b.seed, b.walkV2, i) % nChunks, steps[i].weightPath) == root
  }

  predicate PowOk(p: Prims, proof: PomProof, b: Block, finalState: U64) {
    && finalState == proof.finalState
    && PowValue(p, finalState, b.pph, b.h3) == proof.powValue
    && LeLeq(proof.powValue, b.target)
  }

  predicate LegacyFieldsEmpty(proof: PomProof) {
    && proof.traceRoot == ZeroDigest() && proof.initialTracePath == [] && proof.finalTracePath == []
    && proof.openings == []
  }

  predicate AcceptsV2(p: Prims, proof: PomProof, b: Block, nChunks: nat, k: nat, root: Digest)
    requires nChunks >= 1
  {
    && proof.stepsV2.Some? && |proof.stepsV2.value| == k
    && LegacyFieldsEmpty(proof)
    && (forall i :: 0 <= i < k ==> StepOpens(p, proof.stepsV2.value, b, nChunks, root, i))
    && PowOk(p, proof, b, Shown(p, proof.stepsV2.value, b.seed, b.walkV2, k))
  }

  method VerifyProofV2(p: Prims, proof: PomProof, b: Block, nChunks: nat, k: nat, root: Digest) returns (ok: bool)
    requires nChunks >= 1
    ensures ok <==> AcceptsV2(p, proof, b, nChunks, k, root)
  {
    hide Climb, Advance, PowValue, LeLeq, LegacyFieldsEmpty;
    if proof.stepsV2.None? || |proof.stepsV2.value| != k || !LegacyFieldsEmpty(proof) {
      return false;
    }
    var steps := proof.stepsV2.value;
    var state := b.seed;
    for i := 0 to k
      invariant state == Shown(p, steps, b.seed, b.walkV2, i)
      invariant forall j :: 0 <= j < i ==> StepOpens(p, steps, b, nChunks, root, j)
    {
      var opens := VerifyMerkle(p.blake, p.blake(steps[i].chunk), state % nChunks, steps[i].weightPath, root);
      if !opens {
        assert !StepOpens(p, steps, b, nChunks, root, i);
        return false;
      }
      state := Advance(p, state, steps[i].chunk, b.walkV2);
    }
    if state != proof.finalState {
      return false;
    }
    var powValue := PowValue(p, state, b.pph, b.h3);
    if powValue != proof.powValue {
      return false;
    }
    ok := LeLeqLoop(powValue, b.target);
  }

  // ---- v2 soundness ----

  predicate FalseAt(p: Prims, chunks: seq<Bytes32>, steps: seq<PomStep>, b: Block, i: nat)
    requires |chunks| >= 1 && i < |steps|
  {
    steps[i].chunk != chunks[Shown(p, steps, b.seed, b.walkV2, i) % |chunks|]
  }

  function FirstFalse(p: Prims, chunks: seq<Bytes32>, steps: seq<PomStep>, b: Block, i: nat): (f: nat)
    requires |chunks| >= 1 && i <= |steps|
    ensures i <= f <= |steps|
    decreases |steps| - i
  {
    if i == |steps| || FalseAt(p, chunks, steps, b, i) then i else FirstFalse(p, chunks, steps, b, i + 1)
  }

  lemma {:induction false} FirstFalseIsFirst(p: Prims, chunks: seq<Bytes32>, steps: seq<PomStep>, b: Block, i: nat)
    requires |chunks| >= 1 && i <= |steps|
    ensures var f := FirstFalse(p, chunks, steps, b, i);
      && (forall j :: i <= j < f ==> !FalseAt(p, chunks, steps, b, j))
      && (f < |steps| ==> FalseAt(p, chunks, steps, b, f))
    decreases |steps| - i
  {
    hide FalseAt;
    if i < |steps| && !FalseAt(p, chunks, steps, b, i) {
      FirstFalseIsFirst(p, chunks, steps, b, i + 1);
    }
  }

  /** The collision an accepted false v2 proof gives away. */
  function V2Collision(p: Prims, chunks: seq<Bytes32>, steps: seq<PomStep>, b: Block): Preimages
    requires |chunks| >= 1
  {
    var f := FirstFalse(p, chunks, steps, b, 0);
    if f == |steps| then Preimages([], [])
    else ChunkCollision(p.blake, chunks, steps[f].chunk, Shown(p, steps, b.seed, b.walkV2, f) % |chunks|, steps[f].weightPath)
  }

  lemma {:induction false} ShownIsHonest(p: Prims, chunks: seq<Bytes32>, steps: seq<PomStep>, b: Block, k: nat)
    requires |chunks| >= 1 && k <= |steps|
    requires forall j :: 0 <= j < k ==> !FalseAt(p, chunks, steps, b, j)
    ensures Shown(p, steps, b.seed, b.walkV2, k) == Honest(p, chunks, b.seed, b.walkV2, k)
  {
    hide Advance;
    if k > 0 {
      ShownIsHonest(p, chunks, steps, b, k - 1);
      assert !FalseAt(p, chunks, steps, b, k - 1);
    }
  }

  /** An accepted v2 proof shows the blob's chunks along the honest walk, ends in its final state and
      meets the target with its pow value; or a collision is computed. */
  lemma V2Sound(p: Prims, chunks: seq<Bytes32>, proof: PomProof, b: Block, k: nat)
    requires |chunks| >= 1
    requires AcceptsV2(p, proof, b, |chunks|, k, Root(p.blake, Leaves(p.blake, chunks)))
    ensures IsCollision(p.blake, V2Collision(p, chunks, proof.stepsV2.value, b))
         || (&& proof.finalState == Honest(p, chunks, b.seed, b.walkV2, k)
             && LeLeq(PowValue(p, proof.finalState, b.pph, b.h3), b.target)
             && forall i :: 0 <= i < k ==>
               proof.stepsV2.value[i].chunk == chunks[Honest(p, chunks, b.seed, b.walkV2, i) % |chunks|])
  {
    hide FirstFalse, ChunkCollision, PowValue, Advance, LegacyFieldsEmpty, Root, Leaves, Climb, LeLeq;
    var steps := proof.stepsV2.value;
    FirstFalseIsFirst(p, chunks, steps, b, 0);
    var f := FirstFalse(p, chunks, steps, b, 0);
    if f < k {
      assert StepOpens(p, steps, b, |chunks|, Root(p.blake, Leaves(p.blake, chunks)), f);
      assert FalseAt(p, chunks, steps, b, f);
      OpeningSound(p.blake, chunks, steps[f].chunk, Shown(p, steps, b.seed, b.walkV2, f) % |chunks|, steps[f].weightPath);
    } else {
      ShownIsHonest(p, chunks, steps, b, k);
      forall i | 0 <= i < k
        ensures steps[i].chunk == chunks[Honest(p, chunks, b.seed, b.walkV2, i) % |chunks|]
      {
        ShownIsHonest(p, chunks, steps, b, i);
        assert !FalseAt(p, chunks, steps, b, i);
      }
    }
  }

  // ---- v2 completeness ----

  function HonestStep(p: Prims, chunks: seq<Bytes32>, b: Block, i: nat): PomStep
    requires |chunks| >= 1
  {
    var off := Honest(p, chunks, b.seed, b.walkV2, i) % |chunks|;
    PomStep(WordsToBytes(ChunkToWords(chunks[off])), Path(p.blake, Leaves(p.blake, chunks), off))
  }

  function HonestSteps(p: Prims, chunks: seq<Bytes32>, b: Block, k: nat): (steps: seq<PomStep>)
    requires |chunks| >= 1
    ensures |steps| == k
  {
    if k == 0 then [] else HonestSteps(p, chunks, b, k - 1) + [HonestStep(p, chunks, b, k - 1)]
  }

  function ProofV2(p: Prims, chunks: seq<Bytes32>, tier: Byte, b: Block, k: nat): PomProof
    requires |chunks| >= 1
  {
    var s := Honest(p, chunks, b.seed, b.walkV2, k);
    PomProof(tier, ZeroDigest(), PowValue(p, s, b.pph, b.h3), s, [], [], [], Some(HonestSteps(p, chunks, b, k)), None, None, None)
  }

  lemma {:induction false} HonestStepsAt(p: Prims, chunks: seq<Bytes32>, b: Block, k: nat, i: nat)
    requires |chunks| >= 1 && i < k
    ensures HonestSteps(p, chunks, b, k)[i] == HonestStep(p, chunks, b, i)
  {
    hide HonestStep;
    if i < k - 1 { HonestStepsAt(p, chunks, b, k - 1, i); }
  }

  lemma HonestStepIsTrue(p: Prims, chunks: seq<Bytes32>, b: Block, i: nat)
    requires |chunks| >= 1
    ensures HonestStep(p, chunks, b, i).chunk == chunks[Honest(p, chunks, b.seed, b.walkV2, i) % |chunks|]
  {
    hide Path, ChunkToWords, WordsToBytes, Honest;
    WordsRoundTrip(chunks[Honest(p, chunks, b.seed, b.walkV2, i) % |chunks|]);
  }

  lemma {:induction false} HonestStepsWalk(p: Prims, chunks: seq<Bytes32>, b: Block, k: nat, i: nat)
    requires |chunks| >= 1 && i <= k
    ensures Shown(p, HonestSteps(p, chunks, b, k), b.seed, b.walkV2, i) == Honest(p, chunks, b.seed, b.walkV2, i)
  {
    hide Advance, HonestStep, HonestSteps;
    if i > 0 {
      HonestStepsWalk(p, chunks, b, k, i - 1);
      HonestStepsAt(p, chunks, b, k, i - 1);
      HonestStepIsTrue(p, chunks, b, i - 1);
    }
  }

  lemma HonestStepOpens(p: Prims, chunks: seq<Bytes32>, b: Block, k: nat, i: nat)
    requires |chunks| >= 1 && i < k
    ensures StepOpens(p, HonestSteps(p, chunks, b, k), b, |chunks|, Root(p.blake, Leaves(p.blake, chunks)), i)
  {
    hide Climb, Path, HonestSteps, Honest, Shown, ChunkToWords, WordsToBytes, Root;
    var off := Honest(p, chunks, b.seed, b.walkV2, i) % |chunks|;
    HonestStepsWalk(p, chunks, b, k, i);
    HonestStepsAt(p, chunks, b, k, i);
    HonestStepIsTrue(p, chunks, b, i);
    PathOpens(p.blake, Leaves(p.blake, chunks), off);
  }

  /** The built v2 proof is accepted exactly when the walk's pow value meets the target. */
  lemma V2Complete(p: Prims, chunks: seq<Bytes32>, tier: Byte, b: Block, k: nat)
    requires |chunks| >= 1
    ensures AcceptsV2(p, ProofV2(p, chunks, tier, b, k), b, |chunks|, k, Root(p.blake, Leaves(p.blake, chunks)))
       <==> LeLeq(PowValue(p, Honest(p, chunks, b.seed, b.walkV2, k), b.pph, b.h3), b.target)
  {
    hide StepOpens, HonestSteps, Honest, PowValue, LeLeq, Root, Leaves, Shown;
    HonestStepsWalk(p, chunks, b, k, k);
    forall i | 0 <= i < k
      ensures StepOpens(p, HonestSteps(p, chunks, b, k), b, |chunks|, Root(p.blake, Leaves(p.blake, chunks)), i)
    {
      HonestStepOpens(p, chunks, b, k, i);
    }
  }

  method BuildProofV2(p: Prims, index: WeightIndex.Index, tier: Byte, b: Block, k: nat) returns (proof: PomProof)
    requires index.Valid() && index.blake == p.blake
    modifies index`siblingMemo
    ensures index.Valid() && |index.chunks| >= 1
    ensures proof == ProofV2(p, index.chunks, tier, b, k)
  {
    hide Path, Advance, PowValue, ChunkToWords, WordsToBytes, Leaves;
    var n := index.LeafCount();
    var steps := [];
    var state := b.seed;
    for i := 0 to k
      invariant index.Valid()
      invariant state == Honest(p, index.chunks, b.seed, b.walkV2, i)
      invariant steps == HonestSteps(p, index.chunks, b, i)
    {
      var off := state % n;
      var chunk := index.ReadChunkBytes(off);
      var path := index.MerklePath(off);
      steps := steps + [PomStep(WordsToBytes(ChunkToWords(chunk)), path)];
      state := Advance(p, state, chunk, b.walkV2);
    }
    proof := PomProof(tier, ZeroDigest(), PowValue(p, state, b.pph, b.h3), state, [], [], [], Some(steps), None, None, None);
  }

  // ---- v1 ----

  function TraceLeaf(p: Prims, state: U64): Digest {
    p.blake(ToLe(state, 8))
  }

  /** Leaves of the trace tree: states `0..k` of the walk. */
  function TraceLeaves(p: Prims, chunks: seq<Bytes32>, seed: U64, k: nat): (leaves: Level)
    requires |chunks| >= 1
    ensures |leaves| == k + 1
  {
    seq(k + 1, i requires 0 <= i < k + 1 => TraceLeaf(p, Honest(p, chunks, seed, false, i)))
  }

  /** The `j`-th Fiat-Shamir step index. */
  function Challenge(p: Prims, b: Block, traceRoot: Digest, powValue: Bytes32, k: nat, j: nat): (i: nat)
    requires k >= 1
    ensures i < k
  {
    var fs := p.blake(b.pph + ToLe(b.nonce, 8) + traceRoot.bytes + powValue);
    ReadU64(p.blake(fs.bytes + ToLe(j, 8)).bytes, 0) % k
  }

  predicate OpeningOk(p: Prims, op: PomOpening, i: nat, nChunks: nat, root: Digest, traceRoot: Digest)
    requires nChunks >= 1
  {
    && Climb(p.blake, TraceLeaf(p, op.stateBefore), i, op.tracePathBefore) == traceRoot
    && Climb(p.blake, p.blake(op.chunk), op.stateBefore % nChunks, op.weightPath) == root
    && Climb(p.blake, TraceLeaf(p, Advance(p, op.stateBefore, op.chunk, false)), i + 1, op.tracePathAfter) == traceRoot
  }

  predicate AcceptsV1(p: Prims, proof: PomProof, b: Block, nChunks: nat, k: nat, t: nat, root: Digest)
    requires nChunks >= 1 && k >= 1
  {
    && |proof.openings| == t
    && PowOk(p, proof, b, proof.finalState)
    && Climb(p.blake, TraceLeaf(p, b.seed), 0, proof.initialTracePath) == proof.traceRoot
    && Climb(p.blake, TraceLeaf(p, proof.finalState), k, proof.finalTracePath) == proof.traceRoot
    && forall j :: 0 <= j < t ==>
      OpeningOk(p, proof.openings[j], Challenge(p, b, proof.traceRoot, proof.powValue, k, j), nChunks, root, proof.traceRoot)
  }

  /** Every challenged chunk of an accepted v1 proof is the blob's where the opened state points, or its
      path gives a collision. */
  lemma V1OpeningsSound(p: Prims, chunks: seq<Bytes32>, proof: PomProof, b: Block, k: nat, t: nat, j: nat)
    requires |chunks| >= 1 && k >= 1 && j < t
    requires AcceptsV1(p, proof, b, |chunks|, k, t, Root(p.blake, Leaves(p.blake, chunks)))
    ensures |proof.openings| == t
    ensures var op := proof.openings[j];
      var off := op.stateBefore % |chunks|;
      op.chunk == chunks[off] || IsCollision(p.blake, ChunkCollision(p.blake, chunks, op.chunk, off, op.weightPath))
  {
    hide Climb, Root, Leaves, ChunkCollision, Challenge, Advance, PowValue, TraceLeaf;
    var op := proof.openings[j];
    assert OpeningOk(p, op, Challenge(p, b, proof.traceRoot, proof.powValue, k, j), |chunks|, Root(p.blake, Leaves(p.blake, chunks)), proof.traceRoot);
    OpeningSound(p.blake, chunks, op.chunk, op.stateBefore % |chunks|, op.weightPath);
  }

  method VerifyProofV1(p: Prims, proof: PomProof, b: Block, nChunks: nat, k: nat, t: nat, root: Digest) returns (ok: bool)
    requires nChunks >= 1 && k >= 1
    ensures ok <==> AcceptsV1(p, proof, b, nChunks, k, t, root)
  {
    hide Climb, Advance, PowValue, LeLeq, TraceLeaf, Challenge;
    if |proof.openings| != t || PowValue(p, proof.finalState, b.pph, b.h3) != proof.powValue {
      return false;
    }
    var below := LeLeqLoop(proof.powValue, b.target);
    if !below {
      return false;
    }
    var first := VerifyMerkle(p.blake, TraceLeaf(p, b.seed), 0, proof.initialTracePath, proof.traceRoot);
    var last := VerifyMerkle(p.blake, TraceLeaf(p, proof.finalState), k, proof.finalTracePath, proof.traceRoot);
    if !first || !last {
      return false;
    }
    for j := 0 to t
      invariant forall m :: 0 <= m < j ==>
        OpeningOk(p, proof.openings[m], Challenge(p, b, proof.traceRoot, proof.powValue, k, m), nChunks, root, proof.traceRoot)
    {
      var i := Challenge(p, b, proof.traceRoot, proof.powValue, k, j);
      var opens := CheckOpening(p, proof.openings[j], i, nChunks, root, proof.traceRoot);
      if !opens {
        return false;
      }
    }
    ok := true;
  }

  method CheckOpening(p: Prims, op: PomOpening, i: nat, nChunks: nat, root: Digest, traceRoot: Digest) returns (ok: bool)
    requires nChunks >= 1
    ensures ok <==> OpeningOk(p, op, i, nChunks, root, traceRoot)
  {
    hide Climb, Advance, TraceLeaf;
    var before := VerifyMerkle(p.blake, TraceLeaf(p, op.stateBefore), i, op.tracePathBefore, traceRoot);
    var weight := VerifyMerkle(p.blake, p.blake(op.chunk), op.stateBefore % nChunks, op.weightPath, root);
    var after := Advance(p, op.stateBefore, op.chunk, false);
    var next := VerifyMerkle(p.blake, TraceLeaf(p, after), i + 1, op.tracePathAfter, traceRoot);
    ok := before && weight && next;
  }

  function HonestOpening(p: Prims, chunks: seq<Bytes32>, seed: U64, k: nat, i: nat): PomOpening
    requires |chunks| >= 1 && i < k
  {
    var s := Honest(p, chunks, seed, false, i);
    var leaves := TraceLeaves(p, chunks, seed, k);
    PomOpening(s, WordsToBytes(ChunkToWords(chunks[s % |chunks|])), Path(p.blake, Leaves(p.blake, chunks), s % |chunks|),
               Path(p.blake, leaves, i), Path(p.blake, leaves, i + 1))
  }

  /** `proof` is what `build_proof` makes: the committed trace and the challenged openings. */
  ghost predicate IsProofV1(p: Prims, chunks: seq<Bytes32>, b: Block, k: nat, t: nat, proof: PomProof)
    requires |chunks| >= 1 && k >= 1
  {
    var leaves := TraceLeaves(p, chunks, b.seed, k);
    && proof.traceRoot == Root(p.blake, leaves)
    && proof.finalState == Honest(p, chunks, b.seed, false, k)
    && proof.powValue == PowValue(p, proof.finalState, b.pph, b.h3)
    && proof.initialTracePath == Path(p.blake, leaves, 0)
    && proof.finalTracePath == Path(p.blake, leaves, k)
    && |proof.openings| == t
    && forall j :: 0 <= j < t ==>
      proof.openings[j] == HonestOpening(p, chunks, b.seed, k, Challenge(p, b, proof.traceRoot, proof.powValue, k, j))
  }

  lemma TracePathOpens(p: Prims, chunks: seq<Bytes32>, seed: U64, k: nat, i: nat)
    requires |chunks| >= 1 && i <= k
    ensures var leaves := TraceLeaves(p, chunks, seed, k);
      Climb(p.blake, TraceLeaf(p, Honest(p, chunks, seed, false, i)), i, Path(p.blake, leaves, i)) == Root(p.blake, leaves)
  {
    hide Climb, Path, Root, Honest, TraceLeaf;
    PathOpens(p.blake, TraceLeaves(p, chunks, seed, k), i);
  }

  lemma HonestOpeningOk(p: Prims, chunks: seq<Bytes32>, seed: U64, k: nat, i: nat)
    requires |chunks| >= 1 && i < k
    ensures OpeningOk(p, HonestOpening(p, chunks, seed, k, i), i, |chunks|, Root(p.blake, Leaves(p.blake, chunks)),
                      Root(p.blake, TraceLeaves(p, chunks, seed, k)))
  {
    hide Climb, Path, Root, TraceLeaf, TraceLeaves, Advance, ChunkToWords, WordsToBytes;
    var s := Honest(p, chunks, seed, false, i);
    WordsRoundTrip(chunks[s % |chunks|]);
    TracePathOpens(p, chunks, seed, k, i);
    TracePathOpens(p, chunks, seed, k, i + 1);
    PathOpens(p.blake, Leaves(p.blake, chunks), s % |chunks|);
  }

  /** The built v1 proof is accepted exactly when the walk's pow value meets the target. */
  lemma V1Complete(p: Prims, chunks: seq<Bytes32>, b: Block, k: nat, t: nat, proof: PomProof)
    requires |chunks| >= 1 && k >= 1 && IsProofV1(p, chunks, b, k, t, proof)
    ensures AcceptsV1(p, proof, b, |chunks|, k, t, Root(p.blake, Leaves(p.blake, chunks)))
       <==> LeLeq(PowValue(p, Honest(p, chunks, b.seed, false, k), b.pph, b.h3), b.target)
  {
    hide Climb, Path, Root, TraceLeaf, TraceLeaves, Challenge, PowValue, LeLeq, OpeningOk, HonestOpening, Leaves;
    TracePathOpens(p, chunks, b.seed, k, 0);
    TracePathOpens(p, chunks, b.seed, k, k);
    assert Honest(p, chunks, b.seed, false, 0) == b.seed;
    forall j | 0 <= j < t
      ensures OpeningOk(p, proof.openings[j], Challenge(p, b, proof.traceRoot, proof.powValue, k, j), |chunks|,
                        Root(p.blake, Leaves(p.blake, chunks)), proof.traceRoot)
    {
      HonestOpeningOk(p, chunks, b.seed, k, Challenge(p, b, proof.traceRoot, proof.powValue, k, j));
    }
  }

  lemma TraceStart(p: Prims, chunks: seq<Bytes32>, seed: U64)
    requires |chunks| >= 1
    ensures Honest(p, chunks, seed, false, 0) == seed
    ensures TraceLeaves(p, chunks, seed, 0) == [TraceLeaf(p, seed)]
  {}

  lemma TraceNext(p: Prims, chunks: seq<Bytes32>, seed: U64, i: nat)
    requires |chunks| >= 1
    ensures var s := Honest(p, chunks, seed, false, i);
      Honest(p, chunks, seed, false, i + 1) == Advance(p, s, chunks[s % |chunks|], false)
    ensures TraceLeaves(p, chunks, seed, i + 1)
         == TraceLeaves(p, chunks, seed, i) + [TraceLeaf(p, Honest(p, chunks, seed, false, i + 1))]
  {
    hide Advance, TraceLeaf;
  }

  /** The walk with its trace recorded. */
  method RecordTrace(p: Prims, index: WeightIndex.Index, seed: U64, k: nat) returns (trace: seq<U64>, leaves: Level)
    requires index.Valid() && |index.chunks| >= 1
    ensures |trace| == k + 1 && forall m :: 0 <= m <= k ==> trace[m] == Honest(p, index.chunks, seed, false, m)
    ensures leaves == TraceLeaves(p, index.chunks, seed, k)
  {
    hide Advance, TraceLeaf, TraceLeaves, Honest;
    var n := index.LeafCount();
    var state := seed;
    trace, leaves := [seed], [TraceLeaf(p, seed)];
    TraceStart(p, index.chunks, seed);
    for i := 0 to k
      invariant state == Honest(p, index.chunks, seed, false, i)
      invariant |trace| == i + 1 && forall m :: 0 <= m <= i ==> trace[m] == Honest(p, index.chunks, seed, false, m)
      invariant leaves == TraceLeaves(p, index.chunks, seed, i)
    {
      var chunk := index.ReadChunkBytes(state % n);
      TraceNext(p, index.chunks, seed, i);
      state := Advance(p, state, chunk, false);
      trace := trace + [state];
      leaves := leaves + [TraceLeaf(p, state)];
    }
  }

  method OpenChallenges(p: Prims, index: WeightIndex.Index, b: Block, trace: seq<U64>, leaves: Level, k: nat, t: nat,
                        traceRoot: Digest, powValue: Bytes32) returns (openings: seq<PomOpening>)
    requires index.Valid() && index.blake == p.blake && |index.chunks| >= 1 && k >= 1
    requires |trace| == k + 1 && forall m :: 0 <= m <= k ==> trace[m] == Honest(p, index.chunks, b.seed, false, m)
    requires leaves == TraceLeaves(p, index.chunks, b.seed, k)
    modifies index`siblingMemo
    ensures index.Valid() && |openings| == t
    ensures forall m :: 0 <= m < t ==>
      openings[m] == HonestOpening(p, index.chunks, b.seed, k, Challenge(p, b, traceRoot, powValue, k, m))
  {
    hide Challenge, HonestOpening, Honest, TraceLeaves;
    openings := [];
    for j := 0 to t
      invariant index.Valid() && |openings| == j
      invariant forall m :: 0 <= m < j ==>
        openings[m] == HonestOpening(p, index.chunks, b.seed, k, Challenge(p, b, traceRoot, powValue, k, m))
    {
      var i := Challenge(p, b, traceRoot, powValue, k, j);
      var opening := OpenStep(p, index, leaves, trace[i], b.seed, k, i);
      openings := openings + [opening];
    }
  }

  method BuildProofV1(p: Prims, index: WeightIndex.Index, tier: Byte, b: Block, k: nat, t: nat) returns (proof: PomProof)
    requires index.Valid() && index.blake == p.blake && k >= 1
    modifies index`siblingMemo
    ensures index.Valid() && |index.chunks| >= 1
    ensures IsProofV1(p, index.chunks, b, k, t, proof)
  {
    hide Path, Root, PowValue, Challenge, TraceLeaves, HonestOpening, Honest;
    var n := index.LeafCount();
    var trace, leaves := RecordTrace(p, index, b.seed, k);
    var traceRoot := MerkleRoot(p.blake, leaves);
    var powValue := PowValue(p, trace[k], b.pph, b.h3);
    var openings := OpenChallenges(p, index, b, trace, leaves, k, t, traceRoot, powValue);
    var first := MerkleProof(p.blake, leaves, 0);
    var last := MerkleProof(p.blake, leaves, k);
    proof := PomProof(tier, traceRoot, powValue, trace[k], first, last, openings, None, None, None, None);
  }

  method OpenStep(p: Prims, index: WeightIndex.Index, leaves: Level, s: U64, ghost seed: U64, ghost k: nat, i: nat)
    returns (opening: PomOpening)
    requires index.Valid() && index.blake == p.blake && |index.chunks| >= 1 && i < k
    requires leaves == TraceLeaves(p, index.chunks, seed, k) && s == Honest(p, index.chunks, seed, false, i)
    modifies index`siblingMemo
    ensures index.Valid()
    ensures opening == HonestOpening(p, index.chunks, seed, k, i)
  {
    hide Path, Honest, TraceLeaves, ChunkToWords, WordsToBytes, Leaves;
    var n := index.LeafCount();
    var chunk := index.ReadChunkBytes(s % n);
    var weightPath := index.MerklePath(s % n);
    var before := MerkleProof(p.blake, leaves, i);
    var after := MerkleProof(p.blake, leaves, i + 1);
    opening := PomOpening(s, WordsToBytes(ChunkToWords(chunk)), weightPath, before, after);
  }
}
