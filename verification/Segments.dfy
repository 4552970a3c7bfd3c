/** Segment tables of the walked blob: where each chunk number lives on the device, the bucket table
    that speeds the lookup up, and the pad appended behind the weights. */
module Segments {
  import opened Wrappers
  import Pow

  const TILE_CHUNKS: nat := 32
  const MAX_BUCKETS: nat := 16_384
  const MAX_SEGMENTS: nat := 65_535

  /** First chunk of every segment, and the total at the end. */
  ghost predicate Table(prefix: seq<nat>) {
    |prefix| >= 2 && prefix[0] == 0 && forall i, j :: 0 <= i < j < |prefix| ==> prefix[i] < prefix[j]
  }

  function TotalChunks(prefix: seq<nat>): nat
    requires |prefix| >= 1
  {
    prefix[|prefix| - 1]
  }

  /** The segment holding chunk `idx`. */
  predicate Holds(prefix: seq<nat>, seg: nat, idx: nat) {
    seg + 1 < |prefix| && prefix[seg] <= idx < prefix[seg + 1]
  }

  lemma HoldsUnique(prefix: seq<nat>, a: nat, b: nat, idx: nat)
    requires Table(prefix) && Holds(prefix, a, idx) && Holds(prefix, b, idx)
    ensures a == b
  {}

  /** The kernel's binary search. */
  method FindSegment(prefix: seq<nat>, idx: nat) returns (lo: nat)
    requires Table(prefix) && idx < TotalChunks(prefix)
    ensures Holds(prefix, lo, idx)
  {
    lo := 0;
    var hi := |prefix| - 1;
    while lo + 1 < hi
      invariant lo < hi < |prefix| && prefix[lo] <= idx < prefix[hi]
    {
      var mid := (lo + hi) / 2;
      if prefix[mid] <= idx { lo := mid; } else { hi := mid; }
    }
  }

  // ---- the bucket table ----

  /** Linear search from `lo`, never past the last segment. */
  function WalkUp(prefix: seq<nat>, lo: nat, idx: nat): (r: nat)
    ensures lo <= r
    decreases |prefix| - lo
  {
    if lo + 2 < |prefix| && prefix[lo + 1] <= idx then WalkUp(prefix, lo + 1, idx) else lo
  }

  /** Started at `lo`, the linear search ends in the chunk's segment if and only if `lo` is not past
      it. */
  lemma {:induction false} WalkUpExact(prefix: seq<nat>, lo: nat, idx: nat, seg: nat)
    requires Table(prefix) && Holds(prefix, seg, idx)
    ensures WalkUp(prefix, lo, idx) == seg <==> lo <= seg
    decreases |prefix| - lo
  {
    if lo < seg {
      assert prefix[lo + 1] <= prefix[seg] by { if lo + 1 < seg { assert prefix[lo + 1] < prefix[seg]; } }
      WalkUpExact(prefix, lo + 1, idx, seg);
    }
  }

  /** `bk << sh`: the first chunk of a bucket. */
  function BucketStart(bk: nat, sh: nat): nat {
    bk * Pow.Pow2(sh)
  }

  /** What the construction leaves in bucket `bk`: the last boundary at or below its first chunk. */
  predicate BucketOk(prefix: seq<nat>, sh: nat, bk: nat, lo: nat) {
    && lo < |prefix| && prefix[lo] <= BucketStart(bk, sh)
    && (lo + 1 < |prefix| ==> BucketStart(bk, sh) < prefix[lo + 1])
  }

  ghost predicate LutOk(prefix: seq<nat>, sh: nat, lut: seq<nat>) {
    forall bk :: 0 <= bk < |lut| ==> BucketOk(prefix, sh, bk, lut[bk])
  }

  datatype Lut = Lut(segments: nat, chunks: nat, sh: nat, lut: seq<nat>)

  /** `v4_ncf_lut` on a cache miss: none when a segment number would not fit in sixteen bits. */
  method BuildLut(prefix: seq<nat>, tiles: nat) returns (r: Option<Lut>)
    requires Table(prefix)
    ensures r.None? <==> |prefix| - 1 > MAX_SEGMENTS
    ensures r.Some? ==>
      && r.value.segments == |prefix| - 1 && r.value.chunks == tiles * TILE_CHUNKS
      && |r.value.lut| == Pow.Shr(tiles * TILE_CHUNKS, r.value.sh) + 1 <= MAX_BUCKETS + 1
      && (r.value.sh > 0 ==> Pow.Shr(tiles * TILE_CHUNKS, r.value.sh - 1) > MAX_BUCKETS)
      && LutOk(prefix, r.value.sh, r.value.lut)
  {
    hide Pow.Pow2, Table;
    if |prefix| - 1 > MAX_SEGMENTS { return None; }
    TableBasics(prefix);
    var n: nat := tiles * TILE_CHUNKS;
    var sh: nat := 0;
    while Pow.Shr(n, sh) > MAX_BUCKETS
      invariant sh > 0 ==> Pow.Shr(n, sh - 1) > MAX_BUCKETS
      decreases Pow.Shr(n, sh)
    {
      sh := sh + 1;
    }
    var lut: seq<nat> := [];
    var lo: nat := 0;
    hide Pow.Shr;
    for bk := 0 to Pow.Shr(n, sh) + 1
      invariant |lut| == bk && LutOk(prefix, sh, lut)
      invariant lo < |prefix| && prefix[lo] <= BucketStart(bk, sh)
    {
      while lo + 1 < |prefix| && prefix[lo + 1] <= BucketStart(bk, sh)
        invariant lo < |prefix| && prefix[lo] <= BucketStart(bk, sh)
      {
        lo := lo + 1;
      }
      lut := lut + [lo];
      Pow.Scale(bk, bk + 1, Pow.Pow2(sh));
    }
    r := Some(Lut(|prefix| - 1, n, sh, lut));
  }

  lemma TableBasics(prefix: seq<nat>)
    requires Table(prefix)
    ensures |prefix| >= 2 && prefix[0] == 0
  {}

  lemma {:induction false} BucketBelow(idx: nat, sh: nat)
    ensures BucketStart(Pow.Shr(idx, sh), sh) <= idx
  {
    hide Pow.Pow2, Pow.Shr;
    if sh == 0 {
      Pow.ShrZero(idx);
      Pow.Pow2Zero(idx);
    } else {
      BucketBelow(idx, sh - 1);
      var p, q := Pow.Pow2(sh - 1), Pow.Shr(idx, sh - 1);
      Pow.ShrNext(idx, sh);
      Pow.DoublePow(q / 2, sh - 1);
      Pow.Regroup(q / 2, p);
      Pow.Scale(2 * (q / 2), q, p);
    }
  }

  lemma {:induction false} ShrMonotone(a: nat, b: nat, k: nat)
    requires a <= b
    ensures Pow.Shr(a, k) <= Pow.Shr(b, k)
  {
    if k > 0 { ShrMonotone(a, b, k - 1); }
  }

  /** A bucket never points past the segment of any of its chunks. */
  lemma FreshLutNotPast(prefix: seq<nat>, sh: nat, lut: seq<nat>, idx: nat, seg: nat)
    requires Table(prefix) && LutOk(prefix, sh, lut) && Holds(prefix, seg, idx) && Pow.Shr(idx, sh) < |lut|
    ensures lut[Pow.Shr(idx, sh)] <= seg
  {
    hide Pow.Shr, BucketStart;
    BucketBelow(idx, sh);
    assert BucketOk(prefix, sh, Pow.Shr(idx, sh), lut[Pow.Shr(idx, sh)]);
  }

  /** The kernel's lookup through the bucket table. */
  function LutSegment(prefix: seq<nat>, lut: Lut, idx: nat): nat
    requires Pow.Shr(idx, lut.sh) < |lut.lut|
  {
    WalkUp(prefix, lut.lut[Pow.Shr(idx, lut.sh)], idx)
  }

  ghost predicate Covers(lut: Lut) {
    |lut.lut| == Pow.Shr(lut.chunks, lut.sh) + 1
  }

  lemma CoversIndex(lut: Lut, idx: nat)
    requires Covers(lut) && idx < lut.chunks
    ensures Pow.Shr(idx, lut.sh) < |lut.lut|
  {
    ShrMonotone(idx, lut.chunks, lut.sh);
  }

  /** With a freshly built table the fast lookup is the binary search. */
  lemma FreshLutResolves(prefix: seq<nat>, lut: Lut, idx: nat, seg: nat)
    requires Table(prefix) && Covers(lut) && LutOk(prefix, lut.sh, lut.lut)
    requires idx < lut.chunks && Holds(prefix, seg, idx)
    ensures Pow.Shr(idx, lut.sh) < |lut.lut| && LutSegment(prefix, lut, idx) == seg
  {
    hide Pow.Shr, Table, LutOk, Covers, WalkUp;
    CoversIndex(lut, idx);
    FreshLutNotPast(prefix, lut.sh, lut.lut, idx, seg);
    WalkUpExact(prefix, lut.lut[Pow.Shr(idx, lut.sh)], idx, seg);
  }

  // ---- the cached table ----

  /** A cached table is reused when only these two counts agree. */
  predicate CacheHit(lut: Lut, prefix: seq<nat>, tiles: nat) {
    lut.segments == |prefix| - 1 && lut.chunks == tiles * TILE_CHUNKS
  }

  /** A reused table resolves a chunk if and only if the boundary its bucket names in the new table is
      not above the chunk. */
  lemma CachedLutResolvesIff(prefix: seq<nat>, tiles: nat, lut: Lut, idx: nat, seg: nat)
    requires Table(prefix) && CacheHit(lut, prefix, tiles) && Covers(lut)
    requires forall bk :: 0 <= bk < |lut.lut| ==> lut.lut[bk] < |prefix|
    requires idx < lut.chunks && Holds(prefix, seg, idx)
    ensures Pow.Shr(idx, lut.sh) < |lut.lut|
    ensures LutSegment(prefix, lut, idx) == seg <==> prefix[lut.lut[Pow.Shr(idx, lut.sh)]] <= idx
  {
    hide Pow.Shr, Covers, WalkUp;
    CoversIndex(lut, idx);
    var lo := lut.lut[Pow.Shr(idx, lut.sh)];
    WalkUpExact(prefix, lo, idx, seg);
    BoundaryBelow(prefix, lo, idx, seg);
  }

  lemma BoundaryBelow(prefix: seq<nat>, lo: nat, idx: nat, seg: nat)
    requires Table(prefix) && Holds(prefix, seg, idx) && lo < |prefix|
    ensures prefix[lo] <= idx <==> lo <= seg
  {
    if lo > seg + 1 { assert prefix[seg + 1] < prefix[lo]; }
    if lo < seg { assert prefix[lo] < prefix[seg]; }
  }

  /** Two blobs of two segments and two tiles: the table built for the first is reused for the second
      and sends its chunk 1 to the wrong segment. */
  lemma StaleLutMisses()
    ensures var old_, new_ := [0, 1, 64], [0, 63, 64];
      var lut := Lut(2, 64, 0, [0] + seq(63, _ => 1) + [2]);
      && Table(old_) && Table(new_) && LutOk(old_, 0, lut.lut) && Covers(lut) && CacheHit(lut, new_, 2)
      && Holds(new_, 0, 1) && LutSegment(new_, lut, 1) == 1
  {
    var lut := Lut(2, 64, 0, [0] + seq(63, _ => 1) + [2]);
    assert lut.lut[1] == 1;
  }

  // ---- the pad behind the weights ----

  /** A device address: a buffer and a chunk within it. */
  datatype Address<B> = Address(base: B, chunk: nat)

  function Resolve<B>(bases: seq<B>, prefix: seq<nat>, seg: nat, idx: nat): Address<B>
    requires seg < |bases| && Holds(prefix, seg, idx)
  {
    Address(bases[seg], idx - prefix[seg])
  }

  ghost predicate Tables<B>(bases: seq<B>, prefix: seq<nat>) {
    Table(prefix) && |prefix| == |bases| + 1
  }

  /** The kept prefix of the weight segments, the last one cut at `cap`. */
  ghost predicate KeptUpTo<B>(bases: seq<B>, prefix: seq<nat>, cap: nat, k: nat, b: seq<B>, p: seq<nat>) {
    && k <= |bases| < |prefix| && b == bases[..k] && |p| == k + 1 && p[0] == 0
    && (forall i :: 1 <= i <= k ==> p[i] == if prefix[i] < cap then prefix[i] else cap)
    && forall i :: 0 <= i < k ==> prefix[i] < cap
  }

  /** Chunk `idx` is in the last segment, the pad, at its displacement from the weights' end. */
  ghost predicate InPad<B>(b: seq<B>, p: seq<nat>, padBase: B, cap: nat, idx: nat) {
    && b != [] && Holds(p, |b| - 1, idx) && idx >= cap
    && Resolve(b, p, |b| - 1, idx) == Address(padBase, idx - cap)
  }

  /** `pad_segment`: the weight segments below the cap, then the pad. */
  method PadSegment<B>(bases: seq<B>, prefix: seq<nat>, weightTiles: nat, padBase: B, padTiles: nat)
    returns (b: seq<B>, p: seq<nat>)
    requires Tables(bases, prefix)
    requires 0 < weightTiles && 0 < padTiles && weightTiles * TILE_CHUNKS <= TotalChunks(prefix)
    ensures Tables(b, p)
    ensures TotalChunks(p) == (weightTiles + padTiles) * TILE_CHUNKS
    ensures forall seg: nat, idx: nat :: Holds(prefix, seg, idx) && idx < weightTiles * TILE_CHUNKS ==>
      Holds(p, seg, idx) && Resolve(b, p, seg, idx) == Resolve(bases, prefix, seg, idx)
    ensures forall idx: nat :: weightTiles * TILE_CHUNKS <= idx < (weightTiles + padTiles) * TILE_CHUNKS ==>
      InPad(b, p, padBase, weightTiles * TILE_CHUNKS, idx)
  {
    var cap := weightTiles * TILE_CHUNKS;
    b, p := [], [0];
    var k := 0;
    while k < |bases| && prefix[k] < cap
      invariant KeptUpTo(bases, prefix, cap, k, b, p)
    {
      b := b + [bases[k]];
      p := p + [if prefix[k + 1] < cap then prefix[k + 1] else cap];
      k := k + 1;
    }
    ghost var kept, keptP := b, p;
    b := b + [padBase];
    p := p + [cap + padTiles * TILE_CHUNKS];
    PadKeeps(bases, prefix, cap, k, kept, keptP, padBase, padTiles * TILE_CHUNKS);
  }

  lemma PadKeeps<B>(bases: seq<B>, prefix: seq<nat>, cap: nat, k: nat, kept: seq<B>, keptP: seq<nat>, padBase: B, pad: nat)
    requires Tables(bases, prefix) && 0 < cap <= TotalChunks(prefix) && pad > 0
    requires KeptUpTo(bases, prefix, cap, k, kept, keptP) && (k == |bases| || prefix[k] >= cap)
    ensures var b, p := kept + [padBase], keptP + [cap + pad];
      && Tables(b, p) && TotalChunks(p) == cap + pad
      && (forall seg: nat, idx: nat :: Holds(prefix, seg, idx) && idx < cap ==>
           Holds(p, seg, idx) && Resolve(b, p, seg, idx) == Resolve(bases, prefix, seg, idx))
      && forall idx: nat :: cap <= idx < cap + pad ==> InPad(b, p, padBase, cap, idx)
  {
    var b, p := kept + [padBase], keptP + [cap + pad];
    assert keptP[k] == cap;
    forall i | 0 <= i <= k
      ensures p[i] == keptP[i] && keptP[i] == if prefix[i] < cap then prefix[i] else cap
    {}
    forall seg: nat, idx: nat | Holds(prefix, seg, idx) && idx < cap
      ensures Holds(p, seg, idx) && Resolve(b, p, seg, idx) == Resolve(bases, prefix, seg, idx)
    {
      BelowCap(prefix, cap, k, seg, idx);
    }
  }

  lemma BelowCap(prefix: seq<nat>, cap: nat, k: nat, seg: nat, idx: nat)
    requires Table(prefix) && Holds(prefix, seg, idx) && idx < cap && k < |prefix|
    requires k == |prefix| - 1 || prefix[k] >= cap
    ensures seg < k
  {
    BoundaryBelow(prefix, k, idx, seg);
  }
}
