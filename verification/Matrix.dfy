/** The int8 matrix walk shared by the v3, v4 and v5 proofs: initial state, one transition,
    state root, snippet fold. `d` is the side of the state (256 for v3, 32 for v4 and v5). */
module Matrix {
  import opened Hashing
  import Pow
  import Digits
  import opened Words
  import opened Merkle

  /** The two primitives nothing here depends on. */
  datatype Prims = Prims(blake: Hash, mix: U64 -> U64)

  function SignedByte(b: Byte): int {
    if b < 128 then b else b - 256
  }

  /** int8 dot product; exact, so the order of the sum is irrelevant. */
  function Dot(row: seq<Byte>, col: seq<Byte>): int
    requires |row| == |col|
  {
    if row == [] then 0
    else
      var k := |row| - 1;
      Dot(row[..k], col[..k]) + SignedByte(row[k]) * SignedByte(col[k])
  }

  function Rho8(acc: int, tweak: U32): Byte {
    var z0 := Xor32(Wrap32(acc), tweak);
    var z1 := Wrap32(z0 * 0x9E3779B9);
    var z2 := Xor32(z1, z1 / 0x1_0000);
    var z3 := Wrap32(z2 * 0x85EBCA6B);
    Xor32(z3, z3 / 0x2000) % 256
  }

  function RhoTweak(step: nat, row: nat, col: nat): U32 {
    Wrap32(step * 0x9E3779B9 + row * 0xC2B2AE35 + col * 0x85EBCA6B)
  }

  /** Row `r` of a `d`-wide matrix stored row by row. */
  function Row(d: nat, state: seq<Byte>, r: nat): (row: seq<Byte>)
    requires |state| == d * d && r < d
    ensures |row| == d
  {
    RowFits(d, r);
    state[r * d..r * d + d]
  }

  lemma RowFits(d: nat, r: nat)
    requires r < d
    ensures r * d + d <= d * d
  {
    assert (r + 1) * d <= d * d;
  }

  /** Cell `(x, j)` of the next state. */
  function Cell(d: nat, state: seq<Byte>, tile: seq<Byte>, step: nat, x: nat, j: nat): Byte
    requires |state| == d * d && |tile| == d * d && x < d && j < d
  {
    Rho8(Dot(Row(d, state, x), Row(d, tile, j)), RhoTweak(step, x, j))
  }

  /** `rho(state x tile)`. */
  function Transition(d: nat, state: seq<Byte>, tile: seq<Byte>, step: nat): (next: seq<Byte>)
    requires d >= 1 && |state| == d * d && |tile| == d * d
    ensures |next| == d * d
  {
    seq(d * d, i requires 0 <= i < d * d => CellAt(d, state, tile, step, i))
  }

  function CellAt(d: nat, state: seq<Byte>, tile: seq<Byte>, step: nat, i: nat): Byte
    requires d >= 1 && |state| == d * d && |tile| == d * d && i < d * d
  {
    DivBelow(d, i);
    Cell(d, state, tile, step, i / d, i % d)
  }

  lemma DivBelow(d: nat, i: nat)
    requires d >= 1 && i < d * d
    ensures 0 <= i / d < d && 0 <= i % d < d
  {
    var q := i / d;
    assert i == q * d + i % d;
    if q >= d { Pow.Scale(d, q, d); }
  }

  lemma DivOfRow(d: nat, x: nat, j: nat)
    requires x < d && j < d
    ensures x * d + j < d * d && (x * d + j) / d == x && (x * d + j) % d == j
  {
    RowFits(d, x);
    Digits.DigitAndRest(j, x, d);
  }

  /** Byte `j` of row `x` of the next state. */
  lemma TransitionAt(d: nat, state: seq<Byte>, tile: seq<Byte>, step: nat, x: nat, j: nat)
    requires |state| == d * d && |tile| == d * d && x < d && j < d
    ensures Row(d, Transition(d, state, tile, step), x)[j] == Cell(d, state, tile, step, x, j)
  {
    hide *;
    DivOfRow(d, x, j);
    CellAtRow(d, state, tile, step, x, j);
    TransitionIndex(d, state, tile, step, x * d + j);
    RowAt(d, Transition(d, state, tile, step), x, j);
  }

  lemma TransitionIndex(d: nat, state: seq<Byte>, tile: seq<Byte>, step: nat, i: nat)
    requires d >= 1 && |state| == d * d && |tile| == d * d && i < d * d
    ensures Transition(d, state, tile, step)[i] == CellAt(d, state, tile, step, i)
  {
    hide CellAt;
  }

  lemma RowAt(d: nat, state: seq<Byte>, x: nat, j: nat)
    requires |state| == d * d && x < d && j < d && x * d + j < d * d
    ensures Row(d, state, x)[j] == state[x * d + j]
  {
    RowFits(d, x);
    SliceAt(state, x * d, d, j);
  }

  lemma SliceAt(s: seq<Byte>, at: nat, n: nat, j: nat)
    requires at + n <= |s| && j < n
    ensures s[at..at + n][j] == s[at + j]
  {}

  lemma CellAtRow(d: nat, state: seq<Byte>, tile: seq<Byte>, step: nat, x: nat, j: nat)
    requires |state| == d * d && |tile| == d * d && x < d && j < d && x * d + j < d * d
    ensures CellAt(d, state, tile, step, x * d + j) == Cell(d, state, tile, step, x, j)
  {
    hide Cell;
    DivOfRow(d, x, j);
  }

  method DotLoop(row: seq<Byte>, col: seq<Byte>) returns (acc: int)
    requires |row| == |col|
    ensures acc == Dot(row, col)
  {
    acc := 0;
    for k := 0 to |row|
      invariant acc == Dot(row[..k], col[..k])
    {
      assert row[..k + 1][..k] == row[..k] && col[..k + 1][..k] == col[..k];
      acc := acc + SignedByte(row[k]) * SignedByte(col[k]);
    }
    assert row[..|row|] == row && col[..|row|] == col;
  }

  /** The scalar transition, written into a buffer that is not the source. */
  method TransitionInto(dst: array<Byte>, d: nat, state: seq<Byte>, tile: seq<Byte>, step: nat)
    requires d >= 1 && dst.Length == d * d && |state| == d * d && |tile| == d * d
    modifies dst
    ensures dst[..] == Transition(d, state, tile, step)
  {
    hide Rho8, RhoTweak, Dot, Row;
    for x := 0 to d
      invariant x * d <= d * d
      invariant forall i :: 0 <= i < x * d ==> dst[i] == CellAt(d, state, tile, step, i)
    {
      RowFits(d, x);
      assert (x + 1) * d == x * d + d;
      for j := 0 to d
        invariant forall i :: 0 <= i < x * d + j ==> dst[i] == CellAt(d, state, tile, step, i)
      {
        DivOfRow(d, x, j);
        var acc := DotLoop(Row(d, state, x), Row(d, tile, j));
        dst[x * d + j] := Rho8(acc, RhoTweak(step, x, j));
      }
    }
  }

  /** Blake of every row. */
  function StateLeaves(p: Prims, d: nat, state: seq<Byte>): (leaves: Level)
    requires |state| == d * d
    ensures |leaves| == d
  {
    seq(d, r requires 0 <= r < d => p.blake(Row(d, state, r)))
  }

  function StateRoot(p: Prims, d: nat, state: seq<Byte>): Digest
    requires d >= 1 && |state| == d * d
  {
    Root(p.blake, StateLeaves(p, d, state))
  }

  function Fold64(root: Digest): U64 {
    ReadU64(root.bytes, 0)
  }

  function MixTimes(mix: U64 -> U64, h: U64, k: nat): U64 {
    if k == 0 then h else mix(MixTimes(mix, h, k - 1))
  }

  /** State 0: a mix keystream per row, four bytes a draw. */
  function InitialState(p: Prims, d: nat, salt: U64, seed: U64): (state: seq<Byte>)
    requires d >= 1
    ensures |state| == d * d
  {
    seq(d * d, i requires 0 <= i < d * d => InitialByte(p, d, salt, seed, i))
  }

  function InitialByte(p: Prims, d: nat, salt: U64, seed: U64, i: nat): Byte
    requires d >= 1 && i < d * d
  {
    var r, k := i / d, i % d;
    var h := MixTimes(p.mix, p.mix(Xor(seed, Wrap(salt + r))), k / 4 + 1);
    ToLe(h % TWO32, 4)[k % 4]
  }

  /** Fold of the first 32 bytes of a tile into one word. */
  function SnippetFold(p: Prims, snippet: Bytes32): U64 {
    SnippetFoldTo(p, snippet, 8)
  }

  function SnippetFoldTo(p: Prims, snippet: Bytes32, w: nat): U64
    requires w <= 8
  {
    if w == 0 then 0 else p.mix(Xor(SnippetFoldTo(p, snippet, w - 1), ReadU32(snippet, 4 * (w - 1))))
  }
}
