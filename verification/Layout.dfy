/** The canonical blob: name-sorted tensors cut into whole 32-byte chunks, and the table that
    finds a chunk's bytes in the file again. */
module Layout {
  import opened Hashing

  /** A tensor of the GGUF: absolute file offset of its data, and its size in bytes. */
  datatype Tensor = Tensor(fileOff: nat, nbytes: nat)

  /** First chunk number of a tensor, and the file offset of that chunk. */
  datatype Start = Start(first: nat, fileOff: nat)

  function FullChunks(t: Tensor): nat {
    t.nbytes / 32
  }

  predicate InFile(file: seq<Byte>, t: Tensor) {
    FullChunks(t) == 0 || t.fileOff + 32 * FullChunks(t) <= |file|
  }

  predicate AllInFile(file: seq<Byte>, tensors: seq<Tensor>) {
    forall i :: 0 <= i < |tensors| ==> InFile(file, tensors[i])
  }

  function ChunkAt(file: seq<Byte>, off: nat): Bytes32
    requires off + 32 <= |file|
  {
    file[off..off + 32]
  }

  function TensorChunks(file: seq<Byte>, t: Tensor): (chunks: seq<Bytes32>)
    requires InFile(file, t)
    ensures |chunks| == FullChunks(t)
  {
    seq(FullChunks(t), c requires 0 <= c < FullChunks(t) => ChunkAt(file, t.fileOff + 32 * c))
  }

  /** The chunks of all tensors in order; a tensor's odd tail bytes belong to no chunk. */
  function CanonicalChunks(file: seq<Byte>, tensors: seq<Tensor>): seq<Bytes32>
    requires AllInFile(file, tensors)
  {
    if tensors == [] then []
    else
      var k := |tensors| - 1;
      CanonicalChunks(file, tensors[..k]) + TensorChunks(file, tensors[k])
  }

  function CountChunks(tensors: seq<Tensor>): nat {
    if tensors == [] then 0 else CountChunks(tensors[..|tensors| - 1]) + FullChunks(tensors[|tensors| - 1])
  }

  /** One row for every tensor that holds a chunk, ascending by first chunk. */
  function StartTable(tensors: seq<Tensor>): seq<Start> {
    if tensors == [] then []
    else
      var k := |tensors| - 1;
      StartTable(tensors[..k])
        + if FullChunks(tensors[k]) > 0 then [Start(CountChunks(tensors[..k]), tensors[k].fileOff)] else []
  }

  /** Index of the first row starting above `off` (`partition_point`). */
  function RowsUpTo(table: seq<Start>, off: nat): (p: nat)
    ensures p <= |table|
    ensures forall i :: 0 <= i < p ==> table[i].first <= off
    ensures p < |table| ==> table[p].first > off
  {
    if table == [] || table[0].first > off then 0
    else
      var rest := RowsUpTo(table[1..], off);
      assert forall i :: 1 <= i < |table| ==> table[i] == table[1..][i - 1];
      1 + rest
  }

  lemma {:induction false} CanonicalLength(file: seq<Byte>, tensors: seq<Tensor>)
    requires AllInFile(file, tensors)
    ensures |CanonicalChunks(file, tensors)| == CountChunks(tensors)
  {
    if tensors != [] { CanonicalLength(file, tensors[..|tensors| - 1]); }
  }

  lemma {:induction false} StartsAreBelow(tensors: seq<Tensor>)
    ensures forall i :: 0 <= i < |StartTable(tensors)| ==> StartTable(tensors)[i].first < CountChunks(tensors)
  {
    if tensors != [] { StartsAreBelow(tensors[..|tensors| - 1]); }
  }

  lemma RowsUpToLast(table: seq<Start>, row: Start, off: nat)
    requires forall i :: 0 <= i < |table| ==> table[i].first < row.first
    ensures off >= row.first ==> RowsUpTo(table + [row], off) == |table| + 1
    ensures off < row.first ==> RowsUpTo(table + [row], off) == RowsUpTo(table, off)
  {
    var all := table + [row];
    var p := RowsUpTo(all, off);
    var q := RowsUpTo(table, off);
    assert forall i :: 0 <= i < |table| ==> all[i] == table[i];
    assert all[|table|] == row;
  }

  /** Looking `off` up in `table` leads to the bytes of `chunk`. */
  predicate Finds(file: seq<Byte>, table: seq<Start>, off: nat, chunk: Bytes32) {
    var p := RowsUpTo(table, off);
    && p >= 1
    && RowReads(file, table[p - 1], off, chunk)
  }

  predicate RowReads(file: seq<Byte>, row: Start, off: nat, chunk: Bytes32) {
    && row.first <= off
    && row.fileOff + (off - row.first) * 32 + 32 <= |file|
    && ChunkAt(file, row.fileOff + (off - row.first) * 32) == chunk
  }

  lemma FindsInLast(file: seq<Byte>, table: seq<Start>, first: nat, t: Tensor, off: nat)
    requires forall i :: 0 <= i < |table| ==> table[i].first < first
    requires InFile(file, t) && first <= off < first + FullChunks(t)
    ensures Finds(file, table + [Start(first, t.fileOff)], off, TensorChunks(file, t)[off - first])
  {
    RowsUpToLast(table, Start(first, t.fileOff), off);
  }

  lemma FindsInEarlier(file: seq<Byte>, table: seq<Start>, row: Start, off: nat, chunk: Bytes32)
    requires forall i :: 0 <= i < |table| ==> table[i].first < row.first
    requires off < row.first && Finds(file, table, off, chunk)
    ensures Finds(file, table + [row], off, chunk)
  {
    RowsUpToLast(table, row, off);
  }

  /** The row `read_chunk_bytes` finds leads to the chunk's own bytes. */
  lemma {:induction false} TableFindsChunk(file: seq<Byte>, tensors: seq<Tensor>, off: nat)
    requires AllInFile(file, tensors)
    requires off < |CanonicalChunks(file, tensors)|
    ensures Finds(file, StartTable(tensors), off, CanonicalChunks(file, tensors)[off])
  {
    hide RowsUpTo, Finds, TensorChunks, FullChunks;
    var k := |tensors| - 1;
    var before, t := tensors[..k], tensors[k];
    CanonicalLength(file, before);
    StartsAreBelow(before);
    var first := CountChunks(before);
    if off < first {
      TableFindsChunk(file, before, off);
      if FullChunks(t) > 0 {
        FindsInEarlier(file, StartTable(before), Start(first, t.fileOff), off, CanonicalChunks(file, before)[off]);
      } else {
        assert StartTable(tensors) == StartTable(before);
      }
    } else {
      FindsInLast(file, StartTable(before), first, t, off);
    }
  }
}
