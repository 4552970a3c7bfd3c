/** The v3 proof: commitments to every state of a 256 x 256 matrix walk, and spot checks of single
    cells chosen by hashing the commitments. */
module MatrixProof {
  import opened Hashing
  import opened Pow
  import opened Words
  import opened Merkle
  import opened MerkleOps
  import opened Tiles
  import opened Matrix
  import opened Records
  import opened Wrappers
  import WeightIndex

  const D: nat := 256
  const K: nat := 256
  const CHECKS: nat := 32
  const TILE_CHUNKS: nat := 2048
  const COL_DEPTH: nat := 3
  const S0_ROW_SALT: U64 := 0x6B61F28F3CC48744
  const OFFSET_FIRST_SALT: U64 := 0x3F1F886D659E316A
  const OFFSET_STEP_SALT: U64 := 0xD4C194F3ADB3B1C7

  type State = s: seq<Byte> | |s| == 65536 witness seq(65536, _ => 0)

  function FirstOffset(p: Prims, seed: U64, nTiles: nat): (off: nat)
    requires nTiles >= 1
    ensures off < nTiles
  {
    p.mix(Xor(seed, OFFSET_FIRST_SALT)) % nTiles
  }

  function NextOffset(p: Prims, seed: U64, step: nat, snippet: Bytes32, nTiles: nat): (off: nat)
    requires nTiles >= 1
    ensures off < nTiles
  {
    p.mix(Xor(Xor(seed, Wrap((step + 1) * OFFSET_STEP_SALT)), SnippetFold(p, snippet))) % nTiles
  }

  /** Offset of step `i + 1`, derived from the snippets before it. */
  function OffsetAt(p: Prims, seed: U64, nTiles: nat, snippets: seq<Bytes32>, i: nat): (off: nat)
    requires nTiles >= 1 && i <= |snippets|
    ensures off < nTiles
  {
    if i == 0 then FirstOffset(p, seed, nTiles) else NextOffset(p, seed, i, snippets[i - 1], nTiles)
  }

  function TileAt(chunks: seq<Bytes32>, off: nat): State
    requires off < |chunks| / TILE_CHUNKS
  {
    Join(chunks[off * 2048..off * 2048 + 2048])
  }

  datatype Walker = Walker(state: State, off: nat)

  /** The reference walk: state and offset after `k` steps. */
  function RefWalk(p: Prims, chunks: seq<Bytes32>, seed: U64, k: nat): (w: Walker)
    requires |chunks| / TILE_CHUNKS >= 1
    ensures w.off < |chunks| / TILE_CHUNKS
  {
    if k == 0 then Walker(InitialState(p, D, S0_ROW_SALT, seed), FirstOffset(p, seed, |chunks| / TILE_CHUNKS))
    else
      var w := RefWalk(p, chunks, seed, k - 1);
      Walker(Transition(D, w.state, TileAt(chunks, w.off), k),
             NextOffset(p, seed, k, chunks[w.off * 2048], |chunks| / TILE_CHUNKS))
  }

  /** A spot check: step, row, column. */
  datatype Point = Point(t: nat, x: nat, j: nat)

  function Flat(ds: seq<Digest>): seq<Byte> {
    if ds == [] then [] else ds[0].bytes + Flat(ds[1..])
  }

  const CHECKS_DOMAIN: seq<Byte> := [107, 101, 114, 121, 120, 45, 104, 54, 45, 99, 104, 101, 99, 107, 115, 45, 118, 51]

  function CheckPoint(p: Prims, pph: Bytes32, nonce: U64, roots: seq<Digest>, snippets: seq<Bytes32>, i: nat): (pt: Point)
    ensures 1 <= pt.t <= K && pt.x < D && pt.j < D
  {
    var seed := p.blake(CHECKS_DOMAIN + pph + ToLe(nonce, 8) + p.blake(Flat(roots)).bytes + p.blake(Join(snippets)).bytes);
    var d := p.blake(seed.bytes + ToLe(i, 8)).bytes;
    Point(1 + ReadU64(d, 0) % K, ReadU64(d, 8) % D, ReadU64(d, 16) % D)
  }

  predicate CheckOk(p: Prims, seed: U64, proof: PomProofV3, root: Digest, nTiles: nat, pt: Point, open: PomV3Opening)
    requires nTiles >= 1 && |proof.roots| == K + 1 && |proof.snippets| == K
    requires 1 <= pt.t <= K && pt.x < D && pt.j < D
  {
    && |open.rowBefore| == D && |open.rowAfter| == D && |open.tileCol| == D
    && Climb(p.blake, p.blake(open.rowBefore), pt.x, open.pathBefore) == proof.roots[pt.t - 1]
    && Climb(p.blake, p.blake(open.rowAfter), pt.x, open.pathAfter) == proof.roots[pt.t]
    && var off := OffsetAt(p, seed, nTiles, proof.snippets, pt.t - 1);
    && Climb(p.blake, GroupRoot(p.blake, Split(open.tileCol)), off * 256 + pt.j, open.colPath) == root
    && Climb(p.blake, p.blake(proof.snippets[pt.t - 1]), off * 2048, open.snippetPath) == root
    && Rho8(Dot(open.rowBefore, open.tileCol), RhoTweak(pt.t, pt.x, pt.j)) == open.rowAfter[pt.j]
  }

  predicate AcceptsV3(p: Prims, pph: Bytes32, nonce: U64, seed: U64, proof: PomProofV3, root: Digest, nChunks: nat) {
    && |proof.roots| == K + 1 && |proof.snippets| == K && |proof.checks| == CHECKS
    && nChunks / TILE_CHUNKS >= 1
    && StateRoot(p, D, InitialState(p, D, S0_ROW_SALT, seed)) == proof.roots[0]
    && forall i :: 0 <= i < CHECKS ==>
      CheckOk(p, seed, proof, root, nChunks / TILE_CHUNKS, CheckPoint(p, pph, nonce, proof.roots, proof.snippets, i), proof.checks[i])
  }

  method VerifyProofV3(p: Prims, pph: Bytes32, nonce: U64, seed: U64, proof: PomProofV3, root: Digest, nChunks: nat) returns (ok: bool)
    ensures ok <==> AcceptsV3(p, pph, nonce, seed, proof, root, nChunks)
  {
    hide CheckOk, CheckPoint, StateRoot, InitialState;
    if |proof.roots| != K + 1 || |proof.snippets| != K || |proof.checks| != CHECKS || nChunks / TILE_CHUNKS == 0 {
      return false;
    }
    if StateRoot(p, D, InitialState(p, D, S0_ROW_SALT, seed)) != proof.roots[0] {
      return false;
    }
    for i := 0 to CHECKS
      invariant forall m :: 0 <= m < i ==>
        CheckOk(p, seed, proof, root, nChunks / TILE_CHUNKS, CheckPoint(p, pph, nonce, proof.roots, proof.snippets, m), proof.checks[m])
    {
      var pt := CheckPoint(p, pph, nonce, proof.roots, proof.snippets, i);
      var good := CheckCell(p, seed, proof, root, nChunks / TILE_CHUNKS, pt, proof.checks[i]);
      if !good {
        return false;
      }
    }
    ok := true;
  }

  method CheckCell(p: Prims, seed: U64, proof: PomProofV3, root: Digest, nTiles: nat, pt: Point, open: PomV3Opening) returns (ok: bool)
    requires nTiles >= 1 && |proof.roots| == K + 1 && |proof.snippets| == K
    requires 1 <= pt.t <= K && pt.x < D && pt.j < D
    ensures ok <==> CheckOk(p, seed, proof, root, nTiles, pt, open)
  {
    hide Climb, GroupRoot, Split, OffsetAt, Rho8, RhoTweak, Dot;
    if |open.rowBefore| != D || |open.rowAfter| != D || |open.tileCol| != D {
      return false;
    }
    var before := VerifyMerkle(p.blake, p.blake(open.rowBefore), pt.x, open.pathBefore, proof.roots[pt.t - 1]);
    var after := VerifyMerkle(p.blake, p.blake(open.rowAfter), pt.x, open.pathAfter, proof.roots[pt.t]);
    var off := OffsetAt(p, seed, nTiles, proof.snippets, pt.t - 1);
    var col := VerifyMerkle(p.blake, GroupRoot(p.blake, Split(open.tileCol)), off * 256 + pt.j, open.colPath, root);
    var snip := VerifyMerkle(p.blake, p.blake(proof.snippets[pt.t - 1]), off * 2048, open.snippetPath, root);
    ok := before && after && col && snip
       && Rho8(Dot(open.rowBefore, open.tileCol), RhoTweak(pt.t, pt.x, pt.j)) == open.rowAfter[pt.j];
  }

  // ---- what the prover opens ----

  function Column(chunks: seq<Bytes32>, off: nat, j: nat): (col: seq<Byte>)
    requires off < |chunks| / TILE_CHUNKS && j < D
    ensures |col| == D
  {
    Join(chunks[off * 2048 + j * 8..off * 2048 + j * 8 + 8])
  }

  function ColPath(p: Prims, chunks: seq<Bytes32>, off: nat, j: nat): seq<Digest>
    requires off < |chunks| / TILE_CHUNKS && j < D
  {
    ColFits(|chunks|, off, j);
    Path(p.blake, Leaves(p.blake, chunks), off * 2048 + j * 8)[COL_DEPTH..]
  }

  lemma ColFits(n: nat, off: nat, j: nat)
    requires off < n / TILE_CHUNKS && j < D
    ensures GroupFits(n, COL_DEPTH, off * 256 + j) && COL_DEPTH <= Height(n)
    ensures (off * 256 + j) * Pow2(COL_DEPTH) == off * 2048 + j * 8 && Pow2(COL_DEPTH) == 8
  {
    assert Pow2(3) == 8;
    HeightCovers(n, COL_DEPTH, off * 256 + j);
  }

  function HonestCheck(p: Prims, chunks: seq<Bytes32>, seed: U64, pt: Point): PomV3Opening
    requires |chunks| / TILE_CHUNKS >= 1 && 1 <= pt.t <= K && pt.x < D && pt.j < D
  {
    var before, after := RefWalk(p, chunks, seed, pt.t - 1), RefWalk(p, chunks, seed, pt.t);
    PomV3Opening(Row(D, before.state, pt.x), Path(p.blake, StateLeaves(p, D, before.state), pt.x),
                 Row(D, after.state, pt.x), Path(p.blake, StateLeaves(p, D, after.state), pt.x),
                 Column(chunks, before.off, pt.j), ColPath(p, chunks, before.off, pt.j),
                 Path(p.blake, Leaves(p.blake, chunks), before.off * 2048))
  }

  /** `proof` is what `build_proof_v3` makes of the reference walk's dump. */
  ghost predicate IsProofV3(p: Prims, chunks: seq<Bytes32>, pph: Bytes32, nonce: U64, seed: U64, proof: PomProofV3)
    requires |chunks| / TILE_CHUNKS >= 1
  {
    && |proof.roots| == K + 1 && |proof.snippets| == K && |proof.checks| == CHECKS
    && (forall t :: 0 <= t <= K ==> proof.roots[t] == StateRoot(p, D, RefWalk(p, chunks, seed, t).state))
    && (forall t :: 0 <= t < K ==> proof.snippets[t] == chunks[RefWalk(p, chunks, seed, t).off * 2048])
    && forall i :: 0 <= i < CHECKS ==>
      proof.checks[i] == HonestCheck(p, chunks, seed, CheckPoint(p, pph, nonce, proof.roots, proof.snippets, i))
  }

  // ---- completeness ----

  lemma {:induction false} OffsetsAgree(p: Prims, chunks: seq<Bytes32>, seed: U64, snippets: seq<Bytes32>, i: nat)
    requires |chunks| / TILE_CHUNKS >= 1 && i <= |snippets|
    requires forall t :: 0 <= t < i ==> snippets[t] == chunks[RefWalk(p, chunks, seed, t).off * 2048]
    ensures OffsetAt(p, seed, |chunks| / TILE_CHUNKS, snippets, i) == RefWalk(p, chunks, seed, i).off
  {
    hide FirstOffset, NextOffset, TileAt, Transition, InitialState;
  }

  lemma RowOpens(p: Prims, state: State, x: nat)
    requires x < D
    ensures Climb(p.blake, p.blake(Row(D, state, x)), x, Path(p.blake, StateLeaves(p, D, state), x)) == StateRoot(p, D, state)
  {
    hide Climb, Path, Root, Row;
    PathOpens(p.blake, StateLeaves(p, D, state), x);
  }

  lemma ColumnOpens(p: Prims, chunks: seq<Bytes32>, off: nat, j: nat)
    requires off < |chunks| / TILE_CHUNKS && j < D
    ensures Climb(p.blake, GroupRoot(p.blake, Split(Column(chunks, off, j))), off * 256 + j, ColPath(p, chunks, off, j))
         == Root(p.blake, Leaves(p.blake, chunks))
  {
    hide Climb, Path, Root, Leaves, GroupRoot, Join, Split, Pow2, Height;
    ColFits(|chunks|, off, j);
    SplitOfJoin(chunks[off * 2048 + j * 8..off * 2048 + j * 8 + 8]);
    GroupPathOpens(p.blake, chunks, COL_DEPTH, off * 256 + j);
  }

  /** Row `j` of a tile is its `j`-th run of eight chunks. */
  lemma ColumnIsRow(chunks: seq<Bytes32>, off: nat, j: nat)
    requires off < |chunks| / TILE_CHUNKS && j < D
    ensures Row(D, TileAt(chunks, off), j) == Column(chunks, off, j)
  {
    hide Join;
    var tile := chunks[off * 2048..off * 2048 + 2048];
    JoinSlice(tile, j * 8, j * 8 + 8);
    SliceOfSlice(chunks, off * 2048, off * 2048 + 2048, j * 8, j * 8 + 8);
  }

  lemma CellHolds(p: Prims, chunks: seq<Bytes32>, seed: U64, pt: Point)
    requires |chunks| / TILE_CHUNKS >= 1 && 1 <= pt.t <= K && pt.x < D && pt.j < D
    ensures var before, after := RefWalk(p, chunks, seed, pt.t - 1), RefWalk(p, chunks, seed, pt.t);
      Rho8(Dot(Row(D, before.state, pt.x), Column(chunks, before.off, pt.j)), RhoTweak(pt.t, pt.x, pt.j))
        == Row(D, after.state, pt.x)[pt.j]
  {
    hide Rho8, RhoTweak, Dot, Row, Column, TileAt, Transition, NextOffset, FirstOffset, InitialState;
    var before := RefWalk(p, chunks, seed, pt.t - 1);
    ColumnIsRow(chunks, before.off, pt.j);
    TransitionAt(D, before.state, TileAt(chunks, before.off), pt.t, pt.x, pt.j);
  }

  lemma HonestCheckOk(p: Prims, chunks: seq<Bytes32>, pph: Bytes32, nonce: U64, seed: U64, proof: PomProofV3, pt: Point)
    requires |chunks| / TILE_CHUNKS >= 1 && 1 <= pt.t <= K && pt.x < D && pt.j < D
    requires IsProofV3(p, chunks, pph, nonce, seed, proof)
    ensures CheckOk(p, seed, proof, Root(p.blake, Leaves(p.blake, chunks)), |chunks| / TILE_CHUNKS, pt, HonestCheck(p, chunks, seed, pt))
  {
    hide RefWalk, Climb, Path, Root, Leaves, Row, Column, ColPath, StateRoot, StateLeaves, GroupRoot, Split, OffsetAt,
         Rho8, RhoTweak, Dot, CheckPoint;
    var before, after := RefWalk(p, chunks, seed, pt.t - 1), RefWalk(p, chunks, seed, pt.t);
    OffsetsAgree(p, chunks, seed, proof.snippets, pt.t - 1);
    RowOpens(p, before.state, pt.x);
    RowOpens(p, after.state, pt.x);
    ColumnOpens(p, chunks, before.off, pt.j);
    SnippetOpens(p, chunks, before.off);
    CellHolds(p, chunks, seed, pt);
  }

  lemma SnippetOpens(p: Prims, chunks: seq<Bytes32>, off: nat)
    requires off < |chunks| / TILE_CHUNKS
    ensures Climb(p.blake, p.blake(chunks[off * 2048]), off * 2048, Path(p.blake, Leaves(p.blake, chunks), off * 2048))
         == Root(p.blake, Leaves(p.blake, chunks))
  {
    hide Climb, Path, Root;
    PathOpens(p.blake, Leaves(p.blake, chunks), off * 2048);
  }

  /** The v3 proof built from the reference walk is accepted, for every seed and block. */
  lemma V3Complete(p: Prims, chunks: seq<Bytes32>, pph: Bytes32, nonce: U64, seed: U64, proof: PomProofV3)
    requires |chunks| / TILE_CHUNKS >= 1
    requires IsProofV3(p, chunks, pph, nonce, seed, proof)
    ensures AcceptsV3(p, pph, nonce, seed, proof, Root(p.blake, Leaves(p.blake, chunks)), |chunks|)
  {
    hide CheckOk, CheckPoint, HonestCheck, StateRoot, InitialState, Root, Leaves, Transition, NextOffset, FirstOffset, TileAt;
    assert proof.roots[0] == StateRoot(p, D, RefWalk(p, chunks, seed, 0).state);
    forall i | 0 <= i < CHECKS
      ensures CheckOk(p, seed, proof, Root(p.blake, Leaves(p.blake, chunks)), |chunks| / TILE_CHUNKS,
                      CheckPoint(p, pph, nonce, proof.roots, proof.snippets, i), proof.checks[i])
    {
      HonestCheckOk(p, chunks, pph, nonce, seed, proof, CheckPoint(p, pph, nonce, proof.roots, proof.snippets, i));
    }
  }

  // ---- what an accepted check opens ----

  /** Where check `i` of the proof looks. */
  function CheckedOffset(p: Prims, pph: Bytes32, nonce: U64, seed: U64, proof: PomProofV3, nTiles: nat, i: nat): (off: nat)
    requires nTiles >= 1 && |proof.snippets| == K
    ensures off < nTiles
  {
    OffsetAt(p, seed, nTiles, proof.snippets, CheckPoint(p, pph, nonce, proof.roots, proof.snippets, i).t - 1)
  }

  /** Every column and every snippet a check of an accepted v3 proof shows is the blob's at the derived
      offset, or its path gives a collision. */
  lemma V3OpeningsSound(p: Prims, chunks: seq<Bytes32>, pph: Bytes32, nonce: U64, seed: U64, proof: PomProofV3, i: nat)
    requires |chunks| >= 1 && i < CHECKS
    requires AcceptsV3(p, pph, nonce, seed, proof, Root(p.blake, Leaves(p.blake, chunks)), |chunks|)
    ensures |chunks| / TILE_CHUNKS >= 1 && |proof.snippets| == K && |proof.checks| == CHECKS
    ensures var pt := CheckPoint(p, pph, nonce, proof.roots, proof.snippets, i);
      ShowsBlob(p, chunks, proof.checks[i], proof.snippets[pt.t - 1], CheckedOffset(p, pph, nonce, seed, proof, |chunks| / TILE_CHUNKS, i), pt.j)
  {
    hide Climb, Root, Leaves, ChunkCollision, ColumnCollision, GroupRoot, Split, Column, CheckPoint, OffsetAt, StateRoot, InitialState, Dot, Rho8;
    var pt, open_ := CheckPoint(p, pph, nonce, proof.roots, proof.snippets, i), proof.checks[i];
    var root := Root(p.blake, Leaves(p.blake, chunks));
    assert CheckOk(p, seed, proof, root, |chunks| / TILE_CHUNKS, pt, open_);
    var off := CheckedOffset(p, pph, nonce, seed, proof, |chunks| / TILE_CHUNKS, i);
    ColumnSound(p, chunks, open_, off, pt.j);
    OpeningSound(p.blake, chunks, proof.snippets[pt.t - 1], off * 2048, open_.snippetPath);
  }

  predicate ShowsBlob(p: Prims, chunks: seq<Bytes32>, open_: PomV3Opening, snippet: Bytes32, off: nat, j: nat)
    requires off < |chunks| / TILE_CHUNKS && j < D
  {
    && |open_.tileCol| == D
    && (open_.tileCol == Column(chunks, off, j) || IsCollision(p.blake, ColumnCollision(p, chunks, open_, off, j)))
    && (snippet == chunks[off * 2048] || IsCollision(p.blake, ChunkCollision(p.blake, chunks, snippet, off * 2048, open_.snippetPath)))
  }

  function ColumnCollision(p: Prims, chunks: seq<Bytes32>, open_: PomV3Opening, off: nat, j: nat): Preimages
    requires |open_.tileCol| == D && off < |chunks| / TILE_CHUNKS && j < D
  {
    ColFits(|chunks|, off, j);
    GroupCollision(p.blake, chunks, Split(open_.tileCol), COL_DEPTH, off * 256 + j, open_.colPath)
  }

  lemma ColumnSound(p: Prims, chunks: seq<Bytes32>, open_: PomV3Opening, off: nat, j: nat)
    requires |open_.tileCol| == D && off < |chunks| / TILE_CHUNKS && j < D
    requires Climb(p.blake, GroupRoot(p.blake, Split(open_.tileCol)), off * 256 + j, open_.colPath) == Root(p.blake, Leaves(p.blake, chunks))
    ensures open_.tileCol == Column(chunks, off, j) || IsCollision(p.blake, ColumnCollision(p, chunks, open_, off, j))
  {
    hide Climb, Root, Leaves, GroupCollision, GroupRoot, Split, Join, Pow2, Height;
    ColFits(|chunks|, off, j);
    GroupOpeningSound(p.blake, chunks, Split(open_.tileCol), COL_DEPTH, off * 256 + j, open_.colPath);
    JoinOfSplit(open_.tileCol);
  }

  // ---- the prover ----

  /** What the prover opens at a check point of any dump of the right shape. */
  function DumpCheck(p: Prims, chunks: seq<Bytes32>, seed: U64, states: seq<State>, snippets: seq<Bytes32>, pt: Point): PomV3Opening
    requires |chunks| / TILE_CHUNKS >= 1 && |states| == K + 1 && |snippets| == K && 1 <= pt.t <= K && pt.x < D && pt.j < D
  {
    var off := OffsetAt(p, seed, |chunks| / TILE_CHUNKS, snippets, pt.t - 1);
    PomV3Opening(Row(D, states[pt.t - 1], pt.x), Path(p.blake, StateLeaves(p, D, states[pt.t - 1]), pt.x),
                 Row(D, states[pt.t], pt.x), Path(p.blake, StateLeaves(p, D, states[pt.t]), pt.x),
                 Column(chunks, off, pt.j), ColPath(p, chunks, off, pt.j),
                 Path(p.blake, Leaves(p.blake, chunks), off * 2048))
  }

  /** `proof` commits to the dump's states and opens it at the derived check points. */
  ghost predicate IsDumpProof(p: Prims, chunks: seq<Bytes32>, pph: Bytes32, nonce: U64, seed: U64,
                              states: seq<State>, snippets: seq<Bytes32>, proof: PomProofV3)
    requires |chunks| / TILE_CHUNKS >= 1 && |states| == K + 1 && |snippets| == K
  {
    && |proof.roots| == K + 1 && proof.snippets == snippets && |proof.checks| == CHECKS
    && (forall t :: 0 <= t <= K ==> proof.roots[t] == StateRoot(p, D, states[t]))
    && forall i :: 0 <= i < CHECKS ==>
      proof.checks[i] == DumpCheck(p, chunks, seed, states, snippets, CheckPoint(p, pph, nonce, proof.roots, snippets, i))
  }

  /** From the reference walk's dump it is the honest proof. */
  lemma DumpProofIsHonest(p: Prims, chunks: seq<Bytes32>, pph: Bytes32, nonce: U64, seed: U64,
                          states: seq<State>, snippets: seq<Bytes32>, proof: PomProofV3)
    requires |chunks| / TILE_CHUNKS >= 1 && IsDump(p, chunks, seed, states, snippets)
    requires IsDumpProof(p, chunks, pph, nonce, seed, states, snippets, proof)
    ensures IsProofV3(p, chunks, pph, nonce, seed, proof)
  {
    hide RefWalk, Path, Leaves, Row, StateLeaves, StateRoot, Column, ColPath, OffsetAt, CheckPoint;
    forall i | 0 <= i < CHECKS
      ensures proof.checks[i] == HonestCheck(p, chunks, seed, CheckPoint(p, pph, nonce, proof.roots, snippets, i))
    {
      var pt := CheckPoint(p, pph, nonce, proof.roots, snippets, i);
      OffsetsAgree(p, chunks, seed, snippets, pt.t - 1);
    }
  }

  /** The dump is the reference walk's: all states and the first chunk of every tile read. */
  ghost predicate IsDump(p: Prims, chunks: seq<Bytes32>, seed: U64, states: seq<State>, snippets: seq<Bytes32>)
    requires |chunks| / TILE_CHUNKS >= 1
  {
    && |states| == K + 1 && |snippets| == K
    && (forall t :: 0 <= t <= K ==> states[t] == RefWalk(p, chunks, seed, t).state)
    && (forall t :: 0 <= t < K ==> snippets[t] == chunks[RefWalk(p, chunks, seed, t).off * 2048])
  }

  method StateRoots(p: Prims, states: seq<State>) returns (roots: seq<Digest>)
    ensures |roots| == |states|
    ensures forall t :: 0 <= t < |states| ==> roots[t] == StateRoot(p, D, states[t])
  {
    hide StateLeaves, Root;
    roots := [];
    for t := 0 to |states|
      invariant |roots| == t
      invariant forall m :: 0 <= m < t ==> roots[m] == StateRoot(p, D, states[m])
    {
      var root := MerkleRoot(p.blake, StateLeaves(p, D, states[t]));
      roots := roots + [root];
    }
  }

  method ReadColumn(index: WeightIndex.Index, off: nat, j: nat) returns (col: seq<Byte>)
    requires index.Built() && off < |index.chunks| / TILE_CHUNKS && j < D
    ensures col == Column(index.chunks, off, j)
  {
    hide Join;
    hide index.Built;
    var n := index.LeafCount();
    var group: seq<Bytes32> := [];
    for c := 0 to 8
      invariant group == index.chunks[off * 2048 + j * 8..off * 2048 + j * 8 + c]
    {
      var chunk := index.ReadChunkBytes(off * 2048 + j * 8 + c);
      group := group + [chunk];
    }
    col := Join(group);
  }

  /** The weight side of a check: the column, its cut path, and the snippet's path. */
  method OpenColumn(p: Prims, index: WeightIndex.Index, off: nat, j: nat)
    returns (col: seq<Byte>, colPath: seq<Digest>, snippetPath: seq<Digest>)
    requires index.Valid() && index.blake == p.blake && off < |index.chunks| / TILE_CHUNKS && j < D
    modifies index`siblingMemo
    ensures index.Valid()
    ensures col == Column(index.chunks, off, j) && colPath == ColPath(p, index.chunks, off, j)
    ensures snippetPath == Path(p.blake, Leaves(p.blake, index.chunks), off * 2048)
  {
    hide Path, Leaves, Column, Pow2, Height;
    var n := index.LeafCount();
    ColFits(n, off, j);
    col := ReadColumn(index, off, j);
    var chunkPath := index.MerklePath(off * 2048 + j * 8);
    colPath := chunkPath[COL_DEPTH..];
    snippetPath := index.MerklePath(off * 2048);
  }

  method OpenCell(p: Prims, index: WeightIndex.Index, states: seq<State>, pt: Point, off: nat, ghost seed: U64, ghost snippets: seq<Bytes32>)
    returns (open_: PomV3Opening)
    requires index.Valid() && index.blake == p.blake && |index.chunks| / TILE_CHUNKS >= 1
    requires |states| == K + 1 && |snippets| == K && 1 <= pt.t <= K && pt.x < D && pt.j < D
    requires off == OffsetAt(p, seed, |index.chunks| / TILE_CHUNKS, snippets, pt.t - 1)
    modifies index`siblingMemo
    ensures index.Valid()
    ensures open_ == DumpCheck(p, index.chunks, seed, states, snippets, pt)
  {
    hide Path, Leaves, Row, StateLeaves, Column, ColPath, OffsetAt;
    var col, colPath, snippetPath := OpenColumn(p, index, off, pt.j);
    var before := MerkleProof(p.blake, StateLeaves(p, D, states[pt.t - 1]), pt.x);
    var after := MerkleProof(p.blake, StateLeaves(p, D, states[pt.t]), pt.x);
    open_ := PomV3Opening(Row(D, states[pt.t - 1], pt.x), before, Row(D, states[pt.t], pt.x), after,
                          col, colPath, snippetPath);
  }

  method OpenChecks(p: Prims, index: WeightIndex.Index, pph: Bytes32, nonce: U64, seed: U64, states: seq<State>,
                    roots: seq<Digest>, snippets: seq<Bytes32>) returns (checks: seq<PomV3Opening>)
    requires index.Valid() && index.blake == p.blake && |index.chunks| / TILE_CHUNKS >= 1
    requires |states| == K + 1 && |snippets| == K
    modifies index`siblingMemo
    ensures index.Valid() && |checks| == CHECKS
    ensures forall i :: 0 <= i < CHECKS ==>
      checks[i] == DumpCheck(p, index.chunks, seed, states, snippets, CheckPoint(p, pph, nonce, roots, snippets, i))
  {
    hide CheckPoint, DumpCheck, OffsetAt;
    var n := index.LeafCount();
    checks := [];
    for i := 0 to CHECKS
      invariant index.Valid() && |checks| == i
      invariant forall m :: 0 <= m < i ==>
        checks[m] == DumpCheck(p, index.chunks, seed, states, snippets, CheckPoint(p, pph, nonce, roots, snippets, m))
    {
      var pt := CheckPoint(p, pph, nonce, roots, snippets, i);
      var off := OffsetAt(p, seed, n / TILE_CHUNKS, snippets, pt.t - 1);
      var open_ := OpenCell(p, index, states, pt, off, seed, snippets);
      checks := checks + [open_];
    }
  }

  /** `build_proof_v3` from a walk's dump: refused exactly for the wrong shape or a blob without a tile;
      from the reference walk's dump it is the honest proof. */
  method BuildProofV3(p: Prims, index: WeightIndex.Index, tier: Byte, pph: Bytes32, nonce: U64, seed: U64,
                      states: seq<State>, snippets: seq<Bytes32>) returns (r: Result<PomProofV3>)
    requires index.Valid() && index.blake == p.blake
    modifies index`siblingMemo
    ensures index.Valid()
    ensures r.Ok? <==> |states| == K + 1 && |snippets| == K && |index.chunks| / TILE_CHUNKS >= 1
    ensures r.Ok? ==> IsDumpProof(p, index.chunks, pph, nonce, seed, states, snippets, r.value) && r.value.tier == tier
    ensures r.Ok? && IsDump(p, index.chunks, seed, states, snippets) ==> IsProofV3(p, index.chunks, pph, nonce, seed, r.value)
  {
    hide StateRoot, CheckPoint, DumpCheck, IsDump, IsProofV3;
    var n := index.LeafCount();
    if |states| != K + 1 || |snippets| != K || n / TILE_CHUNKS == 0 {
      return Err;
    }
    var roots := StateRoots(p, states);
    var checks := OpenChecks(p, index, pph, nonce, seed, states, roots, snippets);
    r := Ok(PomProofV3(tier, roots, snippets, checks));
    if IsDump(p, index.chunks, seed, states, snippets) {
      DumpProofIsHonest(p, index.chunks, pph, nonce, seed, states, snippets, r.value);
    }
  }
}
