/** The v4 and v5 possession proofs: a walk of 256 data-dependent tile reads that the verifier
    repeats in full. v5 interleaves tiles of a context pad the verifier computes itself. */
module Rewalk {
  import opened Hashing
  import opened Pow
  import opened Words
  import opened Merkle
  import opened MerkleOps
  import opened Tiles
  import opened Matrix
  import opened PadSchedule
  import opened Wrappers
  import WeightIndex

  const D: nat := 32
  const TILE_DEPTH: nat := 5
  const S0_ROW_SALT: U64 := 0x03421325594C3C51
  const OFFSET_FIRST_SALT: U64 := 0x6D1CCF96AC4D76F9
  const OFFSET_STEP_SALT: U64 := 0x89050E78D34609EF

  /** A tile, and equally a walk state: 32 x 32 bytes. */
  type Tile = t: seq<Byte> | |t| == 1024 witness seq(1024, _ => 0)

  // ---- the context pad ----

  datatype Quad = Quad(a: U64, b: U64, c: U64, d: U64)

  function RotL(x: U64, up: nat, down: nat): U64
    requires down > 0
  {
    Wrap(x * up + x / down)
  }

  function Round4(q: Quad): Quad {
    var a := Wrap(q.a + q.b);
    var d := RotL(Xor(q.d, a), 0x1_0000_0000, 0x1_0000_0000);
    var c := Wrap(q.c + d);
    var b := RotL(Xor(q.b, c), 0x100_0000, 0x100_0000_0000);
    var a' := Wrap(a + b);
    var d' := RotL(Xor(d, a'), 0x1_0000, 0x1_0000_0000_0000);
    var c' := Wrap(c + d');
    var b' := RotL(Xor(b, c'), 0x8000_0000_0000_0000, 2);
    Quad(a', b', c', d')
  }

  function RoundTimes(q: Quad, k: nat): Quad {
    if k == 0 then q else Round4(RoundTimes(q, k - 1))
  }

  function PadEntry(padSeed: Bytes32, index: nat): Bytes32 {
    var a := Xor(ReadU64(padSeed, 0), 0x510e527fade682d1);
    var b := Xor(ReadU64(padSeed, 8), 0x9b05688c2b3e6c1f);
    var c := Xor(ReadU64(padSeed, 16), 0x1f83d9abfb41bd6b);
    var d := Xor(ReadU64(padSeed, 24), 0x5be0cd19137e2179);
    var q := RoundTimes(Quad(a, Xor(b, Wrap(index)), c, d), 1920);
    ToLe(q.a, 8) + ToLe(q.b, 8) + ToLe(q.c, 8) + ToLe(q.d, 8)
  }

  function PadEntries(padSeed: Bytes32, first: nat, k: nat): (entries: seq<Bytes32>)
    ensures |entries| == k
  {
    if k == 0 then [] else PadEntries(padSeed, first, k - 1) + [PadEntry(padSeed, first + k - 1)]
  }

  function PadTile(padSeed: Bytes32, tile: nat): Tile {
    Join(PadEntries(padSeed, tile * 32, 32))
  }

  // ---- the rules of a walk ----

  datatype Pad = Pad(seed: Bytes32, tiles: nat)

  /** Everything both sides agree on: v4 walks have no pad. */
  datatype Rules = Rules(seed: U64, weightTiles: nat, pad: Option<Pad>)

  predicate HasTiles(r: Rules) {
    r.weightTiles > 0 && (r.pad.Some? ==> r.pad.value.tiles > 0)
  }

  predicate InSpace(r: Rules, off: nat) {
    off < r.weightTiles || (r.pad.Some? && off < r.weightTiles + r.pad.value.tiles)
  }

  function FirstOffset(p: Prims, r: Rules): (off: nat)
    requires HasTiles(r)
    ensures off < r.weightTiles
  {
    p.mix(Xor(r.seed, OFFSET_FIRST_SALT)) % r.weightTiles
  }

  function StateFold(p: Prims, state: Tile, r: nat): U64
    requires r <= 32
  {
    if r == 0 then 0 else Xor(StateFold(p, state, r - 1), p.mix(Xor(ReadU64(state, (r - 1) * 32), r - 1)))
  }

  /** Offset of step `step + 1`, from the tile read at `step` and (v5) the state before it. */
  function NextOffset(p: Prims, r: Rules, step: nat, tile: Tile, state: Tile): (off: nat)
    requires HasTiles(r)
    ensures InSpace(r, off)
    ensures r.pad.Some? ==>
      (off >= r.weightTiles <==> IsPadStep(step + 1, PadSteps(r.weightTiles, r.pad.value.tiles)))
  {
    var base := Xor(Xor(r.seed, Wrap((step + 1) * OFFSET_STEP_SALT)), SnippetFold(p, tile[..32]));
    match r.pad
    case None => p.mix(base) % r.weightTiles
    case Some(pad) =>
      var raw := p.mix(Xor(base, StateFold(p, state, 32)));
      if IsPadStep(step + 1, PadSteps(r.weightTiles, pad.tiles)) then r.weightTiles + raw % pad.tiles
      else raw % r.weightTiles
  }

  datatype Walker = Walker(state: Tile, off: nat)

  function Start(p: Prims, r: Rules): (w: Walker)
    requires HasTiles(r)
    ensures InSpace(r, w.off)
  {
    Walker(InitialState(p, D, S0_ROW_SALT, r.seed), FirstOffset(p, r))
  }

  /** Step `step` of 256, reading `tile`. */
  function StepWalk(p: Prims, r: Rules, w: Walker, tile: Tile, step: nat): (w': Walker)
    requires HasTiles(r) && InSpace(r, w.off)
    ensures InSpace(r, w'.off)
  {
    Walker(Transition(D, w.state, tile, step), if step < K then NextOffset(p, r, step, tile, w.state) else w.off)
  }

  function FinalState(p: Prims, state: Tile): U64 {
    Fold64(StateRoot(p, D, state))
  }

  // ---- the honest walk over a blob ----

  predicate FitsBlob(r: Rules, chunks: seq<Bytes32>) {
    r.weightTiles == |chunks| / 32
  }

  lemma TileFits(n: nat, off: nat)
    ensures GroupFits(n, TILE_DEPTH, off) <==> off < n / 32
  {
    assert Pow2(5) == 32;
  }

  function BlobTile(chunks: seq<Bytes32>, off: nat): Tile
    requires off < |chunks| / 32
  {
    Join(chunks[off * 32..off * 32 + 32])
  }

  function HonestTile(p: Prims, r: Rules, chunks: seq<Bytes32>, off: nat): Tile
    requires FitsBlob(r, chunks) && InSpace(r, off)
  {
    if off < r.weightTiles then BlobTile(chunks, off) else PadTile(r.pad.value.seed, off - r.weightTiles)
  }

  /** State and next offset after `k` honest steps. */
  function HonestWalk(p: Prims, r: Rules, chunks: seq<Bytes32>, k: nat): (w: Walker)
    requires FitsBlob(r, chunks) && HasTiles(r)
    ensures InSpace(r, w.off)
  {
    if k == 0 then Start(p, r)
    else
      var w := HonestWalk(p, r, chunks, k - 1);
      StepWalk(p, r, w, HonestTile(p, r, chunks, w.off), k)
  }

  // ---- proofs ----

  datatype Proof = Proof(tier: Byte, tiles: seq<seq<Byte>>, paths: seq<seq<Digest>>)

  predicate Shaped(proof: Proof) {
    |proof.tiles| == K && |proof.paths| == K
  }

  function ZeroTile(): Tile {
    seq(1024, _ => 0)
  }

  /** The tile the verifier reads at step `i + 1`. */
  function ShownTile(r: Rules, proof: Proof, i: nat, off: nat): Tile
    requires i < |proof.tiles| && InSpace(r, off)
  {
    if off >= r.weightTiles then PadTile(r.pad.value.seed, off - r.weightTiles)
    else if |proof.tiles[i]| == 1024 then proof.tiles[i]
    else ZeroTile()
  }

  function ProofWalk(p: Prims, r: Rules, proof: Proof, k: nat): (w: Walker)
    requires HasTiles(r) && k <= |proof.tiles|
    ensures InSpace(r, w.off)
  {
    if k == 0 then Start(p, r)
    else
      var w := ProofWalk(p, r, proof, k - 1);
      StepWalk(p, r, w, ShownTile(r, proof, k - 1, w.off), k)
  }

  function TileRoot(p: Prims, tile: Tile): Digest {
    GroupRoot(p.blake, Split(tile))
  }

  /** What the verifier demands of step `i + 1`: a weight tile opens under the root at the derived
      offset, a pad position is empty. */
  predicate StepAccepted(p: Prims, r: Rules, root: Digest, proof: Proof, i: nat, off: nat)
    requires i < |proof.tiles| && i < |proof.paths|
  {
    if off < r.weightTiles then
      && |proof.tiles[i]| == 1024
      && Climb(p.blake, TileRoot(p, proof.tiles[i]), off, proof.paths[i]) == root
    else proof.tiles[i] == [] && proof.paths[i] == []
  }

  predicate AcceptedUpTo(p: Prims, r: Rules, root: Digest, proof: Proof, k: nat)
    requires HasTiles(r) && k <= |proof.tiles| && k <= |proof.paths|
  {
    forall i :: 0 <= i < k ==> StepAccepted(p, r, root, proof, i, ProofWalk(p, r, proof, i).off)
  }

  /** The verdict: the derived final state, or an error. */
  function Verdict(p: Prims, r: Rules, root: Digest, proof: Proof): Result<U64> {
    if Shaped(proof) && HasTiles(r) && AcceptedUpTo(p, r, root, proof, K)
    then Ok(FinalState(p, ProofWalk(p, r, proof, K).state))
    else Err
  }

  /** The re-walk of `verify_proof_v4` and of `verify_proof_v5`. */
  method VerifyProof(p: Prims, r: Rules, root: Digest, proof: Proof) returns (verdict: Result<U64>)
    ensures verdict == Verdict(p, r, root, proof)
  {
    hide StepWalk, StepAccepted, ShownTile, Start, FinalState, InSpace;
    if !Shaped(proof) || !HasTiles(r) {
      return Err;
    }
    var w := Start(p, r);
    for i := 0 to K
      invariant w == ProofWalk(p, r, proof, i)
      invariant AcceptedUpTo(p, r, root, proof, i)
    {
      var ok := CheckStep(p, r, root, proof, i, w.off);
      if !ok {
        return Err;
      }
      w := StepWalk(p, r, w, ShownTile(r, proof, i, w.off), i + 1);
    }
    verdict := Ok(FinalState(p, w.state));
  }

  method CheckStep(p: Prims, r: Rules, root: Digest, proof: Proof, i: nat, off: nat) returns (ok: bool)
    requires i < |proof.tiles| && i < |proof.paths|
    ensures ok <==> StepAccepted(p, r, root, proof, i, off)
  {
    hide Climb, TileRoot;
    if off < r.weightTiles {
      if |proof.tiles[i]| != 1024 {
        return false;
      }
      ok := VerifyMerkle(p.blake, TileRoot(p, proof.tiles[i]), off, proof.paths[i], root);
    } else {
      ok := proof.tiles[i] == [] && proof.paths[i] == [];
    }
  }

  // ---- the pad range ----

  /** In a v5 walk the offset of step `k + 1` lies in the pad exactly when that is a pad step, so
      subtracting the weight tiles never underflows. */
  lemma PadOffsetsFollowSchedule(p: Prims, r: Rules, chunks: seq<Bytes32>, k: nat)
    requires FitsBlob(r, chunks) && HasTiles(r) && r.pad.Some? && k < K
    ensures var off := HonestWalk(p, r, chunks, k).off;
      && off < r.weightTiles + r.pad.value.tiles
      && (off >= r.weightTiles <==> IsPadStep(k + 1, PadSteps(r.weightTiles, r.pad.value.tiles)))
  {
    hide HonestTile, PadSteps, IsPadStep, PadStepsUpTo;
    if k == 0 {
      ScheduleExact(r.weightTiles, r.pad.value.tiles);
    }
  }

  // ---- soundness ----

  /** Step `i + 1` shows something else than the blob's tile at the derived offset. */
  predicate FalseAt(p: Prims, r: Rules, chunks: seq<Bytes32>, proof: Proof, i: nat)
    requires FitsBlob(r, chunks) && HasTiles(r) && i < |proof.tiles|
  {
    var off := ProofWalk(p, r, proof, i).off;
    off < r.weightTiles && proof.tiles[i] != BlobTile(chunks, off)
  }

  /** The first such step from `i` on, or the number of tiles. */
  function FirstFalse(p: Prims, r: Rules, chunks: seq<Bytes32>, proof: Proof, i: nat): (f: nat)
    requires FitsBlob(r, chunks) && HasTiles(r) && i <= |proof.tiles|
    ensures i <= f <= |proof.tiles|
    decreases |proof.tiles| - i
  {
    if i == |proof.tiles| || FalseAt(p, r, chunks, proof, i) then i
    else FirstFalse(p, r, chunks, proof, i + 1)
  }

  lemma {:induction false} FirstFalseIsFirst(p: Prims, r: Rules, chunks: seq<Bytes32>, proof: Proof, i: nat)
    requires FitsBlob(r, chunks) && HasTiles(r) && i <= |proof.tiles|
    ensures var f := FirstFalse(p, r, chunks, proof, i);
      && (forall j :: i <= j < f ==> !FalseAt(p, r, chunks, proof, j))
      && (f < |proof.tiles| ==> FalseAt(p, r, chunks, proof, f))
    decreases |proof.tiles| - i
  {
    hide FalseAt;
    if i < |proof.tiles| && !FalseAt(p, r, chunks, proof, i) {
      FirstFalseIsFirst(p, r, chunks, proof, i + 1);
    }
  }

  /** The collision an accepted false proof gives away. */
  function RewalkCollision(p: Prims, r: Rules, chunks: seq<Bytes32>, proof: Proof): Preimages
    requires FitsBlob(r, chunks) && HasTiles(r) && Shaped(proof)
  {
    var f := FirstFalse(p, r, chunks, proof, 0);
    if f == K then Preimages([], []) else TileCollision(p, r, chunks, proof, f, ProofWalk(p, r, proof, f).off)
  }

  function TileCollision(p: Prims, r: Rules, chunks: seq<Bytes32>, proof: Proof, i: nat, off: nat): Preimages
    requires FitsBlob(r, chunks) && Shaped(proof) && i < K
  {
    if off < r.weightTiles && |proof.tiles[i]| == 1024 then
      TileFits(|chunks|, off);
      TileChunks();
      GroupCollision(p.blake, chunks, Split(proof.tiles[i]), TILE_DEPTH, off, proof.paths[i])
    else Preimages([], [])
  }

  lemma TileChunks()
    ensures Pow2(TILE_DEPTH) == 32
  {}

  lemma BlobTileIsGroup(chunks: seq<Bytes32>, off: nat)
    requires off < |chunks| / 32
    ensures GroupFits(|chunks|, TILE_DEPTH, off)
    ensures Split(BlobTile(chunks, off)) == Group(chunks, TILE_DEPTH, off)
  {
    hide Join, Split;
    TileFits(|chunks|, off);
    TileChunks();
    SplitOfJoin(chunks[off * 32..off * 32 + 32]);
  }

  /** An accepted tile is the blob's tile, or a collision. */
  lemma TileSound(p: Prims, r: Rules, chunks: seq<Bytes32>, proof: Proof, i: nat, off: nat)
    requires FitsBlob(r, chunks) && Shaped(proof) && i < K && off < r.weightTiles
    requires |chunks| >= 1 && StepAccepted(p, r, Root(p.blake, Leaves(p.blake, chunks)), proof, i, off)
    ensures proof.tiles[i] == BlobTile(chunks, off)
         || IsCollision(p.blake, TileCollision(p, r, chunks, proof, i, off))
  {
    hide Join, Split, Leaves, Root, Climb, GroupCollision, GroupRoot, Group;
    TileFits(|chunks|, off);
    TileChunks();
    var group := Split(proof.tiles[i]);
    GroupOpeningSound(p.blake, chunks, group, TILE_DEPTH, off, proof.paths[i]);
    BlobTileIsGroup(chunks, off);
    if group == Group(chunks, TILE_DEPTH, off) {
      SplitInjective(proof.tiles[i], BlobTile(chunks, off));
    }
  }

  /** While every shown tile is the blob's, the verifier walks the honest walk. */
  lemma {:induction false} WalksAgree(p: Prims, r: Rules, chunks: seq<Bytes32>, proof: Proof, k: nat)
    requires FitsBlob(r, chunks) && HasTiles(r) && k <= |proof.tiles|
    requires forall j :: 0 <= j < k ==> !FalseAt(p, r, chunks, proof, j)
    ensures ProofWalk(p, r, proof, k) == HonestWalk(p, r, chunks, k)
  {
    hide StepWalk, Start, PadTile, BlobTile, InSpace;
    if k > 0 {
      WalksAgree(p, r, chunks, proof, k - 1);
      assert !FalseAt(p, r, chunks, proof, k - 1);
    }
  }

  /** Every tile shown is the honest one: the blob's tile at the honest offset, nothing at a pad step. */
  ghost predicate ShowsHonestTiles(p: Prims, r: Rules, chunks: seq<Bytes32>, proof: Proof)
    requires FitsBlob(r, chunks) && HasTiles(r) && Shaped(proof)
  {
    forall i :: 0 <= i < K ==> proof.tiles[i] == HonestShown(p, r, chunks, i)
  }

  function HonestShown(p: Prims, r: Rules, chunks: seq<Bytes32>, i: nat): seq<Byte>
    requires FitsBlob(r, chunks) && HasTiles(r)
  {
    var off := HonestWalk(p, r, chunks, i).off;
    if off < r.weightTiles then BlobTile(chunks, off) else []
  }

  function HonestFinal(p: Prims, r: Rules, chunks: seq<Bytes32>): U64
    requires FitsBlob(r, chunks) && HasTiles(r)
  {
    FinalState(p, HonestWalk(p, r, chunks, K).state)
  }

  /** An accepted v4 or v5 proof shows the blob's own tiles at the honest offsets and yields the
      honest final state, or `RewalkCollision` computes two inputs with one hash. */
  lemma RewalkSound(p: Prims, r: Rules, chunks: seq<Bytes32>, proof: Proof)
    requires FitsBlob(r, chunks) && |chunks| >= 1
    requires Verdict(p, r, Root(p.blake, Leaves(p.blake, chunks)), proof).Ok?
    ensures Shaped(proof) && HasTiles(r)
    ensures IsCollision(p.blake, RewalkCollision(p, r, chunks, proof))
         || (ShowsHonestTiles(p, r, chunks, proof)
             && Verdict(p, r, Root(p.blake, Leaves(p.blake, chunks)), proof) == Ok(HonestFinal(p, r, chunks)))
  {
    hide FirstFalse, FalseAt, ProofWalk, HonestWalk, StepAccepted, TileCollision, FinalState, Root, Leaves;
    var f := FirstFalse(p, r, chunks, proof, 0);
    FirstFalseIsFirst(p, r, chunks, proof, 0);
    var root := Root(p.blake, Leaves(p.blake, chunks));
    if f < K {
      assert StepAccepted(p, r, root, proof, f, ProofWalk(p, r, proof, f).off);
      FalseStepCollides(p, r, chunks, proof, f);
    } else {
      WalksAgree(p, r, chunks, proof, K);
      forall i | 0 <= i < K
        ensures proof.tiles[i] == HonestShown(p, r, chunks, i)
      {
        assert StepAccepted(p, r, root, proof, i, ProofWalk(p, r, proof, i).off);
        TrueStepShows(p, r, chunks, proof, i);
      }
    }
  }

  lemma FalseStepCollides(p: Prims, r: Rules, chunks: seq<Bytes32>, proof: Proof, f: nat)
    requires FitsBlob(r, chunks) && HasTiles(r) && Shaped(proof) && |chunks| >= 1 && f < K
    requires FalseAt(p, r, chunks, proof, f)
    requires StepAccepted(p, r, Root(p.blake, Leaves(p.blake, chunks)), proof, f, ProofWalk(p, r, proof, f).off)
    ensures IsCollision(p.blake, TileCollision(p, r, chunks, proof, f, ProofWalk(p, r, proof, f).off))
  {
    hide TileCollision, StepAccepted, ProofWalk, BlobTile, Root, Leaves;
    TileSound(p, r, chunks, proof, f, ProofWalk(p, r, proof, f).off);
  }

  lemma TrueStepShows(p: Prims, r: Rules, chunks: seq<Bytes32>, proof: Proof, i: nat)
    requires FitsBlob(r, chunks) && HasTiles(r) && Shaped(proof) && |chunks| >= 1 && i < K
    requires forall j :: 0 <= j < K ==> !FalseAt(p, r, chunks, proof, j)
    requires StepAccepted(p, r, Root(p.blake, Leaves(p.blake, chunks)), proof, i, ProofWalk(p, r, proof, i).off)
    ensures proof.tiles[i] == HonestShown(p, r, chunks, i)
  {
    hide ProofWalk, HonestWalk, BlobTile, Root, Leaves, Climb, TileRoot;
    WalksAgree(p, r, chunks, proof, i);
    assert !FalseAt(p, r, chunks, proof, i);
  }

  // ---- completeness ----

  function HonestPath(p: Prims, r: Rules, chunks: seq<Bytes32>, i: nat): seq<Digest>
    requires FitsBlob(r, chunks) && HasTiles(r)
  {
    var off := HonestWalk(p, r, chunks, i).off;
    if off < r.weightTiles then TilePath(p, chunks, off) else []
  }

  /** The chunk path of a tile's first chunk without its lowest five siblings. */
  function TilePath(p: Prims, chunks: seq<Bytes32>, off: nat): seq<Digest>
    requires off < |chunks| / 32
  {
    TileFits(|chunks|, off);
    HeightCovers(|chunks|, TILE_DEPTH, off);
    Path(p.blake, Leaves(p.blake, chunks), off * 32)[TILE_DEPTH..]
  }

  /** `proof` is what the prover builds: the honest tiles with their cut paths. */
  ghost predicate IsHonestProof(p: Prims, r: Rules, chunks: seq<Bytes32>, proof: Proof)
    requires FitsBlob(r, chunks) && HasTiles(r)
  {
    Shaped(proof) && HonestUpTo(p, r, chunks, proof, K)
  }

  ghost predicate HonestUpTo(p: Prims, r: Rules, chunks: seq<Bytes32>, proof: Proof, k: nat)
    requires FitsBlob(r, chunks) && HasTiles(r)
  {
    && |proof.tiles| == |proof.paths| >= k
    && forall i :: 0 <= i < k ==>
      proof.tiles[i] == HonestShown(p, r, chunks, i) && proof.paths[i] == HonestPath(p, r, chunks, i)
  }

  lemma TilePathOpens(p: Prims, chunks: seq<Bytes32>, off: nat)
    requires off < |chunks| / 32
    ensures Climb(p.blake, TileRoot(p, BlobTile(chunks, off)), off, TilePath(p, chunks, off))
         == Root(p.blake, Leaves(p.blake, chunks))
  {
    hide Climb, Root, Leaves, Path, Group, GroupRoot, BlobTile;
    TileChunks();
    BlobTileIsGroup(chunks, off);
    GroupPathOpens(p.blake, chunks, TILE_DEPTH, off);
  }

  lemma {:induction false} HonestIsTrue(p: Prims, r: Rules, chunks: seq<Bytes32>, proof: Proof, k: nat)
    requires FitsBlob(r, chunks) && HasTiles(r) && IsHonestProof(p, r, chunks, proof) && k <= K
    ensures ProofWalk(p, r, proof, k) == HonestWalk(p, r, chunks, k)
    ensures forall j :: 0 <= j < k ==> !FalseAt(p, r, chunks, proof, j)
  {
    hide StepWalk, Start, PadTile, BlobTile, InSpace, HonestPath;
    if k > 0 {
      HonestIsTrue(p, r, chunks, proof, k - 1);
      assert proof.tiles[k - 1] == HonestShown(p, r, chunks, k - 1);
    }
  }

  lemma HonestStepAccepted(p: Prims, r: Rules, chunks: seq<Bytes32>, proof: Proof, i: nat)
    requires FitsBlob(r, chunks) && HasTiles(r) && IsHonestProof(p, r, chunks, proof) && i < K
    ensures StepAccepted(p, r, Root(p.blake, Leaves(p.blake, chunks)), proof, i, HonestWalk(p, r, chunks, i).off)
  {
    hide HonestWalk, BlobTile, TilePath, TileRoot, Climb, Root, Leaves, InSpace;
    assert proof.tiles[i] == HonestShown(p, r, chunks, i) && proof.paths[i] == HonestPath(p, r, chunks, i);
    var off := HonestWalk(p, r, chunks, i).off;
    if off < r.weightTiles {
      TilePathOpens(p, chunks, off);
    }
  }

  /** The honest proof is accepted against the dense root with the honest final state. */
  lemma RewalkComplete(p: Prims, r: Rules, chunks: seq<Bytes32>, proof: Proof)
    requires FitsBlob(r, chunks) && HasTiles(r) && IsHonestProof(p, r, chunks, proof)
    ensures Verdict(p, r, Root(p.blake, Leaves(p.blake, chunks)), proof) == Ok(HonestFinal(p, r, chunks))
  {
    hide ProofWalk, HonestWalk, StepAccepted, FinalState, Root, Leaves, HonestUpTo, FalseAt;
    var root := Root(p.blake, Leaves(p.blake, chunks));
    forall i | 0 <= i < K
      ensures StepAccepted(p, r, root, proof, i, ProofWalk(p, r, proof, i).off)
    {
      HonestIsTrue(p, r, chunks, proof, i);
      HonestStepAccepted(p, r, chunks, proof, i);
    }
    HonestIsTrue(p, r, chunks, proof, K);
  }

  /** The honest proof is accepted against a root if and only if it is the dense root. */
  lemma HonestAcceptedIff(p: Prims, r: Rules, chunks: seq<Bytes32>, proof: Proof, root: Digest)
    requires FitsBlob(r, chunks) && HasTiles(r) && IsHonestProof(p, r, chunks, proof)
    ensures Verdict(p, r, root, proof).Ok? <==> root == Root(p.blake, Leaves(p.blake, chunks))
    ensures Verdict(p, r, root, proof).Ok? ==> Verdict(p, r, root, proof) == Ok(HonestFinal(p, r, chunks))
  {
    hide ProofWalk, HonestWalk, StepAccepted, FinalState, Root, Leaves, HonestFinal;
    RewalkComplete(p, r, chunks, proof);
    if Verdict(p, r, root, proof).Ok? {
      var dense := Root(p.blake, Leaves(p.blake, chunks));
      assert StepAccepted(p, r, root, proof, 0, ProofWalk(p, r, proof, 0).off);
      assert StepAccepted(p, r, dense, proof, 0, ProofWalk(p, r, proof, 0).off);
      OneRoot(p, r, root, dense, proof);
    }
  }

  /** Step 1 opens a weight tile, whose path leads to one root. */
  lemma OneRoot(p: Prims, r: Rules, a: Digest, b: Digest, proof: Proof)
    requires HasTiles(r) && Shaped(proof)
    requires StepAccepted(p, r, a, proof, 0, ProofWalk(p, r, proof, 0).off)
    requires StepAccepted(p, r, b, proof, 0, ProofWalk(p, r, proof, 0).off)
    ensures a == b
  {
    hide Climb, TileRoot, InitialState;
  }

  // ---- the prover ----

  method ReadTile(index: WeightIndex.Index, off: nat) returns (tile: Tile)
    requires index.Built() && off < |index.chunks| / 32
    ensures tile == BlobTile(index.chunks, off)
  {
    hide Join;
    hide index.Built;
    var group: seq<Bytes32> := [];
    for c := 0 to 32
      invariant group == index.chunks[off * 32..off * 32 + c]
    {
      var n := index.LeafCount();
      var chunk := index.ReadChunkBytes(off * 32 + c);
      group := group + [chunk];
    }
    tile := Join(group);
  }

  /** `build_proof_v4` and `build_proof_v5`: walk the index, recording tiles and cut paths. */
  method BuildProof(p: Prims, r: Rules, tier: Byte, index: WeightIndex.Index) returns (result: Result<(Proof, U64)>)
    requires index.Valid() && index.blake == p.blake && FitsBlob(r, index.chunks)
    modifies index`siblingMemo
    ensures index.Valid() && index.dense == old(index.dense)
    ensures result.Ok? <==> HasTiles(r)
    ensures result.Ok? ==> IsHonestProof(p, r, index.chunks, result.value.0)
    ensures result.Ok? ==> result.value.1 == HonestFinal(p, r, index.chunks)
    ensures result.Ok? ==> result.value.0.tier == tier
  {
    hide HonestTile, StepWalk, Start, FinalState, BlobTile, PadTile, TilePath, InSpace, HonestUpTo;
    if !HasTiles(r) {
      return Err;
    }
    var w := Start(p, r);
    var proof := Proof(tier, [], []);
    HonestUpToStart(p, r, index.chunks, proof);
    for i := 0 to K
      invariant index.Valid() && index.dense == old(index.dense)
      invariant w == HonestWalk(p, r, index.chunks, i)
      invariant |proof.tiles| == |proof.paths| == i && proof.tier == tier
      invariant HonestUpTo(p, r, index.chunks, proof, i)
    {
      var tile: Tile, shown: seq<Byte>, path: seq<Digest> := BuildStep(p, r, index, w.off);
      HonestUpToGrows(p, r, index.chunks, proof, i, shown, path);
      proof := Proof(tier, proof.tiles + [shown], proof.paths + [path]);
      w := StepWalk(p, r, w, tile, i + 1);
    }
    result := Ok((proof, FinalState(p, w.state)));
  }

  /** What the prover reads and records at offset `off`. */
  method BuildStep(p: Prims, r: Rules, index: WeightIndex.Index, off: nat)
    returns (tile: Tile, shown: seq<Byte>, path: seq<Digest>)
    requires index.Valid() && index.blake == p.blake && FitsBlob(r, index.chunks) && InSpace(r, off)
    modifies index`siblingMemo
    ensures index.Valid() && index.dense == old(index.dense)
    ensures tile == HonestTile(p, r, index.chunks, off)
    ensures off < r.weightTiles ==> shown == BlobTile(index.chunks, off) && path == TilePath(p, index.chunks, off)
    ensures off >= r.weightTiles ==> shown == [] && path == []
  {
    hide Path, BlobTile, PadTile, Leaves;
    if off < r.weightTiles {
      var n := index.LeafCount();
      tile := ReadTile(index, off);
      var full := index.MerklePath(off * 32);
      TileFits(n, off);
      HeightCovers(n, TILE_DEPTH, off);
      shown, path := tile, full[TILE_DEPTH..];
    } else {
      tile, shown, path := PadTile(r.pad.value.seed, off - r.weightTiles), [], [];
    }
  }

  lemma HonestUpToStart(p: Prims, r: Rules, chunks: seq<Bytes32>, proof: Proof)
    requires FitsBlob(r, chunks) && HasTiles(r) && proof.tiles == [] && proof.paths == []
    ensures HonestUpTo(p, r, chunks, proof, 0)
  {}

  lemma HonestUpToGrows(p: Prims, r: Rules, chunks: seq<Bytes32>, proof: Proof, i: nat, shown: seq<Byte>, path: seq<Digest>)
    requires FitsBlob(r, chunks) && HasTiles(r) && HonestUpTo(p, r, chunks, proof, i)
    requires |proof.tiles| == |proof.paths| == i
    requires shown == HonestShown(p, r, chunks, i) && path == HonestPath(p, r, chunks, i)
    ensures HonestUpTo(p, r, chunks, Proof(proof.tier, proof.tiles + [shown], proof.paths + [path]), i + 1)
  {
    hide HonestShown, HonestPath;
  }

  /** Built, then verified against the index's own root: accepted if and only if that is the dense root,
      and then with the same final state; for more than 32 chunks it always is. */
  method BuildAndVerify(p: Prims, r: Rules, tier: Byte, index: WeightIndex.Index) returns (built: Result<(Proof, U64)>, verdict: Result<U64>)
    requires index.Valid() && index.blake == p.blake && FitsBlob(r, index.chunks)
    modifies index`siblingMemo
    ensures index.Valid()
    ensures built.Ok? <==> HasTiles(r)
    ensures built.Ok? ==> (verdict.Ok? <==> index.rT == Root(p.blake, Leaves(p.blake, index.chunks)))
    ensures verdict.Ok? ==> built.Ok? && verdict == Ok(built.value.1)
    ensures built.Ok? && |index.chunks| > 32 ==> verdict.Ok?
  {
    hide Verdict, IsHonestProof, HonestFinal, Root, Leaves;
    built := BuildProof(p, r, tier, index);
    verdict := Err;
    if built.Ok? {
      verdict := VerifyProof(p, r, index.rT, built.value.0);
      HonestAcceptedIff(p, r, index.chunks, built.value.0, index.rT);
    }
  }
}
