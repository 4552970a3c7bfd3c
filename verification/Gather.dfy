/** Where the walk takes each canonical tensor's bytes from when the inference engine is resident, and
    that it then reads the same chunk under every number as the host index. */
module Gather {
  import opened Hashing
  import opened Layout
  import opened Tiles
  import opened Segments
  import opened Wrappers
  import Pow

  // ---- matching resident tensors ----

  datatype Resident = Resident(name: string, ptr: nat, nbytes: nat, onDevice: bool)

  datatype Source = DevicePtr(ptr: nat) | HostPtr(ptr: nat) | FromIndex

  /** The resident tensors of a name, in order. */
  function Matches(resident: seq<Resident>, name: string): seq<Resident> {
    if resident == [] then []
    else
      var k := |resident| - 1;
      Matches(resident[..k], name) + if resident[k].name == name then [resident[k]] else []
  }

  function SourceOf(resident: seq<Resident>, name: string, nbytes: nat): Source {
    SourceAmong(Matches(resident, name), nbytes)
  }

  function SourceAmong(ms: seq<Resident>, nbytes: nat): Source {
    if |ms| == 1 && ms[0].nbytes == nbytes then if ms[0].onDevice then DevicePtr(ms[0].ptr) else HostPtr(ms[0].ptr)
    else FromIndex
  }

  /** `i` is the one resident tensor of that name. */
  ghost predicate OnlyMatch(resident: seq<Resident>, name: string, i: nat) {
    && i < |resident| && resident[i].name == name
    && forall j :: 0 <= j < |resident| && j != i ==> resident[j].name != name
  }

  lemma {:induction false} MatchesCount(resident: seq<Resident>, name: string)
    ensures |Matches(resident, name)| == 0 <==> forall j :: 0 <= j < |resident| ==> resident[j].name != name
    ensures |Matches(resident, name)| == 1 ==> exists i: nat :: OnlyMatch(resident, name, i) && Matches(resident, name) == [resident[i]]
    ensures |Matches(resident, name)| > 1 ==> forall i: nat :: !OnlyMatch(resident, name, i)
  {
    if resident != [] {
      var k := |resident| - 1;
      var before := resident[..k];
      MatchesCount(before, name);
      if |Matches(resident, name)| == 1 {
        if resident[k].name == name {
          assert OnlyMatch(resident, name, k);
        } else {
          var i: nat :| OnlyMatch(before, name, i) && Matches(before, name) == [before[i]];
          assert OnlyMatch(resident, name, i);
        }
      }
      forall i: nat | OnlyMatch(resident, name, i)
        ensures |Matches(resident, name)| <= 1
      {
        if i < k { assert OnlyMatch(before, name, i); }
      }
    }
  }

  /** The engine's copy is used if and only if one resident tensor has the name, and it has the exact
      size; in every other case the bytes come from the host index. */
  lemma SourceExact(resident: seq<Resident>, name: string, nbytes: nat)
    ensures SourceOf(resident, name, nbytes) != FromIndex <==>
      exists i: nat :: OnlyMatch(resident, name, i) && resident[i].nbytes == nbytes
    ensures forall i: nat :: OnlyMatch(resident, name, i) && resident[i].nbytes == nbytes ==>
      SourceOf(resident, name, nbytes) == if resident[i].onDevice then DevicePtr(resident[i].ptr) else HostPtr(resident[i].ptr)
  {
    hide Matches;
    MatchesCount(resident, name);
  }

  datatype Planned = Planned(nbytes: nat, source: Source)

  datatype Plan = Plan(entries: seq<Planned>, totalBytes: nat, indexBytes: nat, zeroDup: nat, hostUploads: nat,
                       indexUploads: seq<string>)

  function PlannedFor(names: seq<string>, tensors: seq<Tensor>, resident: seq<Resident>): (p: seq<Planned>)
    requires |names| == |tensors|
    ensures |p| == |names|
  {
    seq(|names|, i requires 0 <= i < |names| => Planned(tensors[i].nbytes, SourceOf(resident, names[i], tensors[i].nbytes)))
  }

  function SumBytes(p: seq<Planned>, indexOnly: bool): nat {
    if p == [] then 0
    else SumBytes(p[..|p| - 1], indexOnly) + if indexOnly && p[|p| - 1].source != FromIndex then 0 else p[|p| - 1].nbytes
  }

  lemma NoneGrouped()
    ensures Grouped([], map[])
  {}

  ghost predicate Grouped(resident: seq<Resident>, group: map<string, seq<Resident>>) {
    forall name :: (if name in group then group[name] else []) == Matches(resident, name)
  }

  lemma GroupStep(resident: seq<Resident>, i: nat, group: map<string, seq<Resident>>)
    requires i < |resident| && Grouped(resident[..i], group)
    ensures var name := resident[i].name;
      Grouped(resident[..i + 1], group[name := (if name in group then group[name] else []) + [resident[i]]])
  {
    assert resident[..i + 1][..i] == resident[..i];
    forall other: string
      ensures Matches(resident[..i + 1], other) == Matches(resident[..i], other) + if resident[i].name == other then [resident[i]] else []
    {}
  }

  method GroupByName(resident: seq<Resident>) returns (group: map<string, seq<Resident>>)
    ensures Grouped(resident, group)
  {
    hide Matches, Grouped;
    group := map[];
    NoneGrouped();
    assert resident[..0] == [];
    for i := 0 to |resident|
      invariant Grouped(resident[..i], group)
    {
      var t := resident[i];
      GroupStep(resident, i, group);
      group := group[t.name := (if t.name in group then group[t.name] else []) + [t]];
    }
    assert resident[..|resident|] == resident;
  }

  /** `plan_canonical_gather` */
  method PlanCanonicalGather(names: seq<string>, tensors: seq<Tensor>, resident: seq<Resident>) returns (plan: Plan)
    requires |names| == |tensors|
    ensures plan.entries == PlannedFor(names, tensors, resident)
    ensures plan.totalBytes == SumBytes(plan.entries, false) && plan.indexBytes == SumBytes(plan.entries, true)
    ensures plan.zeroDup + plan.hostUploads + |plan.indexUploads| == |names|
  {
    hide Matches, SourceAmong;
    var group := GroupByName(resident);
    var p: seq<Planned> := [];
    var total, index, zeroDup, hostUploads: nat := 0, 0, 0, 0;
    var uploads: seq<string> := [];
    for i := 0 to |names|
      invariant p == PlannedFor(names, tensors, resident)[..i]
      invariant total == SumBytes(p, false) && index == SumBytes(p, true)
      invariant zeroDup + hostUploads + |uploads| == i
    {
      var nbytes := tensors[i].nbytes;
      var source := SourceAmong(if names[i] in group then group[names[i]] else [], nbytes);
      total := total + nbytes;
      match source {
        case DevicePtr(_) => zeroDup := zeroDup + 1;
        case HostPtr(_) => hostUploads := hostUploads + 1;
        case FromIndex =>
          index := index + nbytes;
          uploads := uploads + [names[i]];
      }
      assert (p + [Planned(nbytes, source)])[..i] == p;
      p := p + [Planned(nbytes, source)];
    }
    plan := Plan(p, total, index, zeroDup, hostUploads, uploads);
  }

  // ---- the gather tables ----

  /** A segment's memory: the engine's own, or an upload of ours. */
  datatype Buffer = InPlace(ptr: nat) | Upload(bytes: seq<Byte>)

  function ReadMemory(mem: nat -> Byte, at: nat, n: nat): (bytes: seq<Byte>)
    ensures |bytes| == n && forall b :: 0 <= b < n ==> bytes[b] == mem(at + b)
  {
    seq(n, b requires 0 <= b < n => mem(at + b))
  }

  /** What the walk finds at the address. */
  function Fetch(device: nat -> Byte, a: Address<Buffer>): seq<Byte> {
    match a.base
    case InPlace(ptr) => ReadMemory(device, ptr + 32 * a.chunk, 32)
    case Upload(bytes) => if 32 * a.chunk + 32 <= |bytes| then bytes[32 * a.chunk..32 * a.chunk + 32] else []
  }

  predicate Reads(device: nat -> Byte, a: Address<Buffer>, chunk: Bytes32) {
    Fetch(device, a) == chunk
  }

  function TensorBytes(file: seq<Byte>, t: Tensor): (bytes: seq<Byte>)
    requires InFile(file, t) && FullChunks(t) > 0
    ensures |bytes| == 32 * FullChunks(t)
  {
    file[t.fileOff..t.fileOff + 32 * FullChunks(t)]
  }

  function BufferOf(file: seq<Byte>, host: nat -> Byte, t: Tensor, source: Source): Buffer
    requires InFile(file, t) && FullChunks(t) > 0
  {
    match source
    case DevicePtr(ptr) => InPlace(ptr)
    case HostPtr(ptr) => Upload(ReadMemory(host, ptr, t.nbytes))
    case FromIndex => Upload(TensorBytes(file, t))
  }

  /** The engine's copy of a uniquely named tensor of the right size is the file's. */
  ghost predicate Faithful(file: seq<Byte>, device: nat -> Byte, host: nat -> Byte, t: Tensor, source: Source) {
    InFile(file, t) && FullChunks(t) > 0 ==>
      match source
      case DevicePtr(ptr) => forall b :: 0 <= b < 32 * FullChunks(t) ==> device(ptr + b) == TensorBytes(file, t)[b]
      case HostPtr(ptr) => forall b :: 0 <= b < 32 * FullChunks(t) ==> host(ptr + b) == TensorBytes(file, t)[b]
      case FromIndex => true
  }

  datatype Segs = Segs(bases: seq<Buffer>, prefix: seq<nat>)

  /** The tables over the tensors that hold a chunk. */
  function Gathered(file: seq<Byte>, host: nat -> Byte, tensors: seq<Tensor>, plan: seq<Planned>): (g: Segs)
    requires AllInFile(file, tensors) && |plan| == |tensors|
    ensures |g.prefix| == |g.bases| + 1
  {
    if tensors == [] then Segs([], [0])
    else
      var k := |tensors| - 1;
      var g := Gathered(file, host, tensors[..k], plan[..k]);
      if FullChunks(tensors[k]) == 0 then g
      else Segs(g.bases + [BufferOf(file, host, tensors[k], plan[k].source)],
                g.prefix + [g.prefix[|g.prefix| - 1] + FullChunks(tensors[k])])
  }

  /** The boundaries are the host index's: a segment for every row of its table. */
  lemma {:induction false} GatheredShape(file: seq<Byte>, host: nat -> Byte, tensors: seq<Tensor>, plan: seq<Planned>)
    requires AllInFile(file, tensors) && |plan| == |tensors|
    ensures var g := Gathered(file, host, tensors, plan);
      && g.prefix[0] == 0 && (forall i, j :: 0 <= i < j < |g.prefix| ==> g.prefix[i] < g.prefix[j])
      && TotalChunks(g.prefix) == CountChunks(tensors)
      && |g.bases| == |StartTable(tensors)|
      && forall j :: 0 <= j < |g.bases| ==> g.prefix[j] == StartTable(tensors)[j].first
  {
    hide FullChunks, BufferOf;
    if tensors != [] {
      var k := |tensors| - 1;
      GatheredShape(file, host, tensors[..k], plan[..k]);
    }
  }

  lemma BufferReads(file: seq<Byte>, device: nat -> Byte, host: nat -> Byte, t: Tensor, source: Source, c: nat)
    requires InFile(file, t) && c < FullChunks(t) && Faithful(file, device, host, t, source)
    ensures Reads(device, Address(BufferOf(file, host, t, source), c), TensorChunks(file, t)[c])
  {
    var chunk := TensorChunks(file, t)[c];
    var bytes := TensorBytes(file, t);
    ChunkOfBytes(file, t, c);
    assert 32 * c + 32 <= 32 * FullChunks(t) <= t.nbytes;
    match source
    case DevicePtr(ptr) =>
      forall b | 0 <= b < 32
        ensures device(ptr + 32 * c + b) == chunk[b]
      {
        assert device(ptr + (32 * c + b)) == bytes[32 * c + b];
      }
    case HostPtr(ptr) =>
      var copy := ReadMemory(host, ptr, t.nbytes);
      forall b | 0 <= b < 32
        ensures copy[32 * c + b] == chunk[b]
      {
        assert host(ptr + (32 * c + b)) == bytes[32 * c + b];
      }
      assert copy[32 * c..32 * c + 32] == chunk;
    case FromIndex =>
  }

  lemma ChunkOfBytes(file: seq<Byte>, t: Tensor, c: nat)
    requires InFile(file, t) && c < FullChunks(t)
    ensures TensorBytes(file, t)[32 * c..32 * c + 32] == TensorChunks(file, t)[c]
  {
    SliceOfSlice(file, t.fileOff, t.fileOff + 32 * FullChunks(t), 32 * c, 32 * c + 32);
  }

  /** Every chunk number resolves, through the device tables, to the bytes the host index has there. */
  lemma {:induction false} GatherReadsCanonical(file: seq<Byte>, device: nat -> Byte, host: nat -> Byte,
      tensors: seq<Tensor>, plan: seq<Planned>, seg: nat, idx: nat)
    requires AllInFile(file, tensors) && |plan| == |tensors|
    requires forall i :: 0 <= i < |tensors| ==> Faithful(file, device, host, tensors[i], plan[i].source)
    requires Holds(Gathered(file, host, tensors, plan).prefix, seg, idx)
    ensures idx < |CanonicalChunks(file, tensors)|
    ensures var g := Gathered(file, host, tensors, plan);
      Reads(device, Resolve(g.bases, g.prefix, seg, idx), CanonicalChunks(file, tensors)[idx])
  {
    hide FullChunks, BufferOf, Faithful, Reads, TensorChunks;
    var g := Gathered(file, host, tensors, plan);
    GatheredShape(file, host, tensors, plan);
    CanonicalLength(file, tensors);
    if tensors != [] {
      var k := |tensors| - 1;
      var before := Gathered(file, host, tensors[..k], plan[..k]);
      GatheredShape(file, host, tensors[..k], plan[..k]);
      CanonicalLength(file, tensors[..k]);
      if seg + 1 < |before.prefix| {
        GatherReadsCanonical(file, device, host, tensors[..k], plan[..k], seg, idx);
      } else {
        BufferReads(file, device, host, tensors[k], plan[k].source, idx - CountChunks(tensors[..k]));
      }
    }
  }

  // ---- the loops of load_llama ----

  /** An upload assembled chunk by chunk from the host index. */
  method UploadFromIndex(file: seq<Byte>, tensors: seq<Tensor>, k: nat, start: nat) returns (buffer: seq<Byte>)
    requires AllInFile(file, tensors) && k < |tensors| && FullChunks(tensors[k]) > 0
    requires start == CountChunks(tensors[..k])
    ensures buffer == TensorBytes(file, tensors[k])
  {
    var t := tensors[k];
    buffer := [];
    for i := 0 to FullChunks(t)
      invariant buffer == TensorBytes(file, t)[..32 * i]
    {
      IndexChunk(file, tensors, k, i);
      buffer := buffer + CanonicalChunks(file, tensors)[start + i];
      ChunkOfBytes(file, t, i);
    }
  }

  lemma {:induction false} IndexChunk(file: seq<Byte>, tensors: seq<Tensor>, k: nat, i: nat)
    requires AllInFile(file, tensors) && k < |tensors| && i < FullChunks(tensors[k])
    ensures CountChunks(tensors[..k]) + i < |CanonicalChunks(file, tensors)|
    ensures CanonicalChunks(file, tensors)[CountChunks(tensors[..k]) + i] == TensorChunks(file, tensors[k])[i]
    decreases |tensors|
  {
    hide FullChunks, TensorChunks;
    var m := |tensors| - 1;
    CanonicalLength(file, tensors[..m]);
    if k < m {
      IndexChunk(file, tensors[..m], k, i);
      assert tensors[..m][..k] == tensors[..k];
    }
  }

  method PlaceTensor(file: seq<Byte>, host: nat -> Byte, tensors: seq<Tensor>, k: nat, planned: Planned, start: nat) returns (base: Buffer)
    requires AllInFile(file, tensors) && k < |tensors| && FullChunks(tensors[k]) > 0
    requires start == CountChunks(tensors[..k]) && planned.nbytes == tensors[k].nbytes
    ensures base == BufferOf(file, host, tensors[k], planned.source)
  {
    match planned.source {
      case DevicePtr(p) => base := InPlace(p);
      case HostPtr(p) => base := Upload(ReadMemory(host, p, planned.nbytes));
      case FromIndex =>
        var buffer := UploadFromIndex(file, tensors, k, start);
        base := Upload(buffer);
    }
  }

  predicate ExceedsBudget(plan: Plan) {
    plan.indexBytes * 4 > plan.totalBytes
  }

  // ---- the byte gate ----

  const SAMPLES: nat := 128

  /** The sampled chunk numbers: evenly spaced, and the last one. */
  function SampleAt(total: nat, kk: nat): (off: nat)
    requires total > 0 && kk <= SAMPLES
    ensures off < total
  {
    if kk == SAMPLES then total - 1
    else
      Pow.Scale(kk, SAMPLES, total / (SAMPLES + 1));
      kk * (total / (SAMPLES + 1))
  }

  /** Chunk `off`, wherever the tables put it, reads as the host index has it. */
  ghost predicate SampleOk(device: nat -> Byte, g: Segs, chunks: seq<Bytes32>, off: nat) {
    off < |chunks| && |g.prefix| == |g.bases| + 1 &&
    forall seg: nat :: Holds(g.prefix, seg, off) ==> Reads(device, Resolve(g.bases, g.prefix, seg, off), chunks[off])
  }

  ghost predicate GatePasses(device: nat -> Byte, g: Segs, chunks: seq<Bytes32>) {
    forall kk :: 0 <= kk <= SAMPLES && |chunks| > 0 ==> SampleOk(device, g, chunks, SampleAt(|chunks|, kk))
  }

  /** The byte gate never refuses an engine that holds the file's bytes. */
  lemma GateAdmitsFaithful(file: seq<Byte>, device: nat -> Byte, host: nat -> Byte, tensors: seq<Tensor>, plan: seq<Planned>)
    requires AllInFile(file, tensors) && |plan| == |tensors|
    requires forall i :: 0 <= i < |tensors| ==> Faithful(file, device, host, tensors[i], plan[i].source)
    ensures GatePasses(device, Gathered(file, host, tensors, plan), CanonicalChunks(file, tensors))
  {
    hide Gathered, CanonicalChunks, Faithful, Reads, SampleAt;
    var g, chunks := Gathered(file, host, tensors, plan), CanonicalChunks(file, tensors);
    forall kk | 0 <= kk <= SAMPLES && |chunks| > 0
      ensures SampleOk(device, g, chunks, SampleAt(|chunks|, kk))
    {
      var off := SampleAt(|chunks|, kk);
      forall seg: nat | Holds(g.prefix, seg, off)
        ensures Reads(device, Resolve(g.bases, g.prefix, seg, off), chunks[off])
      {
        GatherReadsCanonical(file, device, host, tensors, plan, seg, off);
      }
    }
  }

  method ByteGate(device: nat -> Byte, g: Segs, chunks: seq<Bytes32>) returns (ok: bool)
    requires Tables(g.bases, g.prefix) && TotalChunks(g.prefix) == |chunks|
    ensures ok <==> GatePasses(device, g, chunks)
  {
    hide Reads, SampleAt;
    TableTotal(g.prefix);
    for kk := 0 to SAMPLES + 1
      invariant forall j :: 0 <= j < kk ==> SampleOk(device, g, chunks, SampleAt(|chunks|, j))
    {
      var off := SampleAt(|chunks|, kk);
      var seg := FindSegment(g.prefix, off);
      forall other: nat | Holds(g.prefix, other, off)
        ensures other == seg
      {
        HoldsUnique(g.prefix, other, seg, off);
      }
      if Fetch(device, Resolve(g.bases, g.prefix, seg, off)) != chunks[off] {
        NotRead(device, g, chunks, seg, off);
        return false;
      }
      assert SampleOk(device, g, chunks, off) by { IsRead(device, g, chunks, seg, off); }
    }
    ok := true;
  }

  lemma TableTotal(prefix: seq<nat>)
    requires Table(prefix)
    ensures TotalChunks(prefix) > 0
  {}

  lemma NotRead(device: nat -> Byte, g: Segs, chunks: seq<Bytes32>, seg: nat, off: nat)
    requires |g.prefix| == |g.bases| + 1 && off < |chunks| && Holds(g.prefix, seg, off)
    requires Fetch(device, Resolve(g.bases, g.prefix, seg, off)) != chunks[off]
    ensures !SampleOk(device, g, chunks, off)
  {}

  lemma IsRead(device: nat -> Byte, g: Segs, chunks: seq<Bytes32>, seg: nat, off: nat)
    requires |g.prefix| == |g.bases| + 1 && off < |chunks| && Holds(g.prefix, seg, off)
    requires forall other: nat :: Holds(g.prefix, other, off) ==> other == seg
    requires Fetch(device, Resolve(g.bases, g.prefix, seg, off)) == chunks[off]
    ensures SampleOk(device, g, chunks, off)
  {}

  /** `load_llama`: no tables when too much would need an upload, when an upload needs an index that
      is not there, when there is no chunk, or when a sampled chunk differs from the index. */
  method LoadLlama(file: seq<Byte>, device: nat -> Byte, host: nat -> Byte, names: seq<string>, tensors: seq<Tensor>,
                   resident: seq<Resident>, hasIndex: bool) returns (r: Option<Segs>)
    requires |names| == |tensors| && AllInFile(file, tensors)
    ensures var plan := PlannedFor(names, tensors, resident);
      && (r.Some? <==>
           && SumBytes(plan, true) * 4 <= SumBytes(plan, false)
           && (SumBytes(plan, true) == 0 || hasIndex)
           && CountChunks(tensors) > 0
           && (hasIndex ==> GatePasses(device, Gathered(file, host, tensors, plan), CanonicalChunks(file, tensors))))
      && (r.Some? ==> r.value == Gathered(file, host, tensors, plan) && Tables(r.value.bases, r.value.prefix))
  {
    hide FullChunks, BufferOf, SumBytes, Gathered, GatePasses;
    var plan := PlanCanonicalGather(names, tensors, resident);
    var entries := plan.entries;
    if ExceedsBudget(plan) || (plan.indexBytes > 0 && !hasIndex) { return None; }
    GatheredNone(file, host);
    var g := Segs([], [0]);
    for k := 0 to |entries|
      invariant AllInFile(file, tensors[..k]) && g == Gathered(file, host, tensors[..k], entries[..k])
    {
      GatheredShape(file, host, tensors[..k], entries[..k]);
      GatheredStep(file, host, tensors, entries, k);
      var chunks := FullChunks(tensors[k]);
      if chunks > 0 {
        var base := PlaceTensor(file, host, tensors, k, entries[k], g.prefix[|g.prefix| - 1]);
        g := Segs(g.bases + [base], g.prefix + [g.prefix[|g.prefix| - 1] + chunks]);
      }
    }
    assert tensors[..|entries|] == tensors && entries[..|entries|] == entries;
    GatheredShape(file, host, tensors, entries);
    if g.prefix[|g.prefix| - 1] == 0 { return None; }
    if hasIndex {
      CanonicalLength(file, tensors);
      var ok := ByteGate(device, g, CanonicalChunks(file, tensors));
      if !ok { return None; }
    }
    r := Some(g);
  }

  lemma GatheredNone(file: seq<Byte>, host: nat -> Byte)
    ensures Gathered(file, host, [], []) == Segs([], [0])
  {}

  lemma GatheredStep(file: seq<Byte>, host: nat -> Byte, tensors: seq<Tensor>, plan: seq<Planned>, k: nat)
    requires AllInFile(file, tensors) && |plan| == |tensors| && k < |tensors|
    ensures AllInFile(file, tensors[..k]) && AllInFile(file, tensors[..k + 1])
    ensures var g := Gathered(file, host, tensors[..k], plan[..k]);
      Gathered(file, host, tensors[..k + 1], plan[..k + 1]) ==
        if FullChunks(tensors[k]) == 0 then g
        else Segs(g.bases + [BufferOf(file, host, tensors[k], plan[k].source)],
                  g.prefix + [g.prefix[|g.prefix| - 1] + FullChunks(tensors[k])])
  {
    hide FullChunks, BufferOf;
    assert tensors[..k + 1][..k] == tensors[..k] && plan[..k + 1][..k] == plan[..k];
  }
}
