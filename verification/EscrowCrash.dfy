/** A process, its files, and every way a write can stop: what a restart finds, and when that is what
    the memory held. */
module EscrowCrash {
  import opened EscrowEntry
  import opened EscrowBook
  import opened Wrappers

  // ---- the live entry of an outpoint ----

  function LiveAt(entries: seq<Entry>, k: Outpoint): Option<Entry> {
    match LastIndex(entries, k)
    case Some(i) => if Live(entries[i]) then Some(entries[i]) else None
    case None => None
  }

  /** An outpoint may be entered again once its entry is done: only the last entry of an outpoint is
      live. */
  ghost predicate LiveLast(entries: seq<Entry>) {
    forall i, j :: 0 <= i < j < |entries| && Live(entries[i]) ==> Key(entries[i]) != Key(entries[j])
  }

  ghost predicate AllHopeful(entries: seq<Entry>) {
    forall i :: 0 <= i < |entries| ==> Hopeful(entries[i])
  }

  /** Entries as they may stand in memory or in a snapshot. */
  ghost predicate Fine(entries: seq<Entry>) {
    LiveLast(entries) && AllHopeful(entries)
  }

  function LastLine(lines: seq<Line>, k: Outpoint): Option<Line> {
    if lines == [] then None
    else if Key(lines[|lines| - 1].e) == k then Some(lines[|lines| - 1])
    else LastLine(lines[..|lines| - 1], k)
  }

  lemma ChangeFine(entries: seq<Entry>, i: nat, e: Entry)
    requires Fine(entries) && i < |entries| && Follows(entries[i], e) && Hopeful(e)
    ensures Fine(entries[i := e])
    ensures forall k :: k != Key(e) ==> LiveAt(entries[i := e], k) == LiveAt(entries, k)
    ensures Live(e) ==> LiveAt(entries[i := e], Key(e)) == Some(e)
  {
    hide LastIndex, Hopeful;
    var r := entries[i := e];
    forall k: Outpoint
      ensures LastIndex(r, k) == LastIndex(entries, k)
    {
      SameKeysSameIndex(entries, r, k);
    }
    if Live(e) { assert LastIndex(entries, Key(e)) == Some(i); }
  }

  lemma TrackFine(entries: seq<Entry>, e: Entry)
    requires Fine(entries) && Hopeful(e) && forall i :: 0 <= i < |entries| && Key(entries[i]) == Key(e) ==> !Live(entries[i])
    ensures Fine(entries + [e])
    ensures forall k :: k != Key(e) ==> LiveAt(entries + [e], k) == LiveAt(entries, k)
    ensures Live(e) ==> LiveAt(entries + [e], Key(e)) == Some(e)
  {
    hide LastIndex, Hopeful;
    forall k: Outpoint
      ensures LastIndex(entries + [e], k) == if k == Key(e) then Some(|entries|) else LastIndex(entries, k)
    {
      LastIndexSnoc(entries, e, k);
    }
  }

  lemma {:induction false} LiveOnlyFine(entries: seq<Entry>)
    requires Fine(entries)
    ensures Fine(LiveOnly(entries))
  {
    hide Live, Key, Hopeful;
    var r := LiveOnly(entries);
    forall i | 0 <= i < |r|
      ensures Hopeful(r[i])
    {
      var j :| 0 <= j < |entries| && entries[j] == r[i];
    }
    if entries != [] {
      var k := |entries| - 1;
      LiveOnlyFine(entries[..k]);
      var before := LiveOnly(entries[..k]);
      forall i | 0 <= i < |before|
        ensures Key(before[i]) != Key(entries[k])
      {
        var j :| 0 <= j < k && entries[..k][j] == before[i];
      }
    }
  }

  /** Compaction loses no live entry. */
  lemma LiveOnlyKeeps(entries: seq<Entry>, k: Outpoint)
    requires Fine(entries)
    ensures LiveAt(LiveOnly(entries), k) == LiveAt(entries, k)
  {
    hide LastIndex, LiveOnly, AllHopeful;
    LiveOnlyFine(entries);
    var r := LiveOnly(entries);
    var i, j := LastIndex(entries, k), LastIndex(r, k);
    assert forall m :: 0 <= m < |entries| && Live(entries[m]) ==> entries[m] in r;
    if j.Some? {
      var m :| 0 <= m < |entries| && entries[m] == r[j.value];
      assert i == Some(m);
    }
  }

  // ---- replay, outpoint by outpoint ----

  lemma UpsertFine(entries: seq<Entry>, e: Entry)
    requires Fine(entries) && Hopeful(e)
    ensures Fine(Upsert(entries, e))
    ensures forall k :: LiveAt(Upsert(entries, e), k) == if k != Key(e) then LiveAt(entries, k) else if Live(e) then Some(e) else None
  {
    hide LastIndex, Hopeful;
    var at, r := LastIndex(entries, Key(e)), Upsert(entries, e);
    forall k: Outpoint
      ensures at.Some? ==> LastIndex(r, k) == LastIndex(entries, k)
      ensures at.None? ==> LastIndex(r, k) == if k == Key(e) then Some(|entries|) else LastIndex(entries, k)
    {
      if at.Some? { SameKeysSameIndex(entries, r, k); } else { LastIndexSnoc(entries, e, k); }
    }
  }

  ghost predicate HopefulLines(lines: seq<Line>) {
    forall i :: 0 <= i < |lines| ==> Hopeful(lines[i].e)
  }

  /** Whatever lines are replayed, in whatever order, no outpoint ends up with two live entries. */
  lemma {:induction false} ApplyFine(l: Snapshot, lines: seq<Line>)
    requires Fine(l.entries) && HopefulLines(lines)
    ensures Fine(ApplyLines(l, lines).entries)
  {
    hide Fine, Upsert, Hopeful;
    if lines != [] {
      var k := |lines| - 1;
      ApplyFine(l, lines[..k]);
      UpsertFine(ApplyLines(l, lines[..k]).entries, lines[k].e);
    }
  }

  /** Consecutive numbers from `first`. */
  ghost predicate Numbered(first: nat, lines: seq<Line>) {
    forall j :: 0 <= j < |lines| ==> lines[j].s == first + j
  }

  /** Fresh consecutive lines are all applied, and the last one of an outpoint decides. */
  lemma {:induction false} FreshApplied(l: Snapshot, lines: seq<Line>, k: Outpoint)
    requires Fine(l.entries) && HopefulLines(lines) && Numbered(l.last + 1, lines)
    ensures ApplyLines(l, lines).last == l.last + |lines|
    ensures LiveAt(ApplyLines(l, lines).entries, k) ==
      match LastLine(lines, k)
      case None => LiveAt(l.entries, k)
      case Some(x) => if Live(x.e) then Some(x.e) else None
  {
    hide Fine, Upsert, Hopeful, LiveAt, Live, Key;
    if lines != [] {
      var m := |lines| - 1;
      FreshApplied(l, lines[..m], k);
      ApplyFine(l, lines[..m]);
      UpsertFine(ApplyLines(l, lines[..m]).entries, lines[m].e);
    }
  }

  // ---- a process and its files ----

  /** `base` is what the process started from, or its last snapshot; `since` are the lines after it, and
      `past[n]` the entries in memory after the first `n` of them. `synced` is the number of the last
      line at the last write that reported success. `lost` are the lines a restart would have found, or
      a write had put down, that joined another line. */
  datatype Sys = Sys(book: Book, disk: Disk, base: Snapshot, since: seq<Line>, past: seq<seq<Entry>>, synced: nat, lost: set<Line>)

  datatype Action =
    | Change(i: nat, e: Entry)         // an entry changes
    | Track(e: Entry)                  // a new entry
    | Compact                          // done entries dropped from memory
    | Append                           // pending lines written and synced
    | AppendCut(k: nat, stop: Stop)    // the write fails after `k` lines
    | SnapshotAll                      // snapshot installed, journal emptied
    | InstallOnly                      // snapshot installed, journal not emptied
    | Crash                            // restart from disk

  const EMPTY: Sys := Sys(Book([], [], 0), Disk(Snapshot([], 0), []), Snapshot([], 0), [], [[]], 0, {})

  /** What the entries' owner guarantees of its changes, and where a write can stop. Appends are never
      held back, whatever the journal ends with. */
  predicate Enabled(s: Sys, a: Action) {
    match a
    case Change(i, e) => i < |s.book.entries| && Follows(s.book.entries[i], e) && Hopeful(e)
    case Track(e) => Hopeful(e) && forall i :: 0 <= i < |s.book.entries| && Key(s.book.entries[i]) == Key(e) ==> !Live(s.book.entries[i])
    case AppendCut(k, stop) => k <= |s.book.pending| && (!stop.Before? ==> k < |s.book.pending|)
    case _ => true
  }

  function LineSet(lines: seq<Line>): set<Line> {
    set x | x in lines
  }

  /** The lines a restart knew before, or the write put down, that it no longer knows and that no later
      write will bring. */
  function Missing(d: Disk, written: seq<Line>, d': Disk, pending: seq<Line>): set<Line> {
    set x | x in LineSet(Taken(d.snap, Readable(d.journal))) + LineSet(written)
      && !Known(d', x) && !(x in pending && x.s > Load(d').last)
  }

  function Changed(s: Sys, book: Book, e: Entry): Sys {
    s.(book := book, since := s.since + [Line(s.book.seqNo + 1, e)], past := s.past + [book.entries])
  }

  /** A write that leaves `journal` after putting down `lines`. */
  function Written(s: Sys, journal: seq<Item>, lines: seq<Line>, pending: seq<Line>): Sys {
    var d := s.disk.(journal := journal);
    s.(book := s.book.(pending := pending), disk := d, lost := s.lost + Missing(s.disk, lines, d, pending))
  }

  function Rebased(s: Sys, base: Snapshot): Sys {
    s.(base := base, since := [], past := [base.entries], synced := base.last, lost := {})
  }

  function Installed(s: Sys, journal: seq<Item>): Sys {
    var snap := Snapshot(s.book.entries, s.book.seqNo);
    Rebased(s.(disk := Disk(snap, journal)), snap)
  }

  /** Lines whose text is complete after a write that stops. */
  function PutDown(k: nat, stop: Stop): nat {
    if stop.BeforeNewline? then k + 1 else k
  }

  function Step(s: Sys, a: Action): Sys
    requires Enabled(s, a)
  {
    match a
    case Change(i, e) => Changed(s, Put(s.book, i, e), e)
    case Track(e) => Changed(s, Push(s.book, e), e)
    case Compact => s.(book := s.book.(entries := LiveOnly(s.book.entries)))
    case Append =>
      Written(s, Appended(s.disk.journal, s.book.pending), s.book.pending, []).(synced := s.book.seqNo)
    case AppendCut(k, stop) =>
      Written(s, Interrupted(s.disk.journal, s.book.pending, k, stop), s.book.pending[..PutDown(k, stop)], s.book.pending)
    case SnapshotAll => Installed(s, []).(book := s.book.(pending := []))
    case InstallOnly => Installed(s, s.disk.journal)
    case Crash =>
      var l := Load(s.disk);
      Rebased(s.(book := Book(l.entries, [], l.last)), l)
  }

  /** `s` is reached by the actions in order. */
  ghost predicate Runs(actions: seq<Action>, s: Sys) {
    if actions == [] then s == EMPTY
    else
      var k := |actions| - 1;
      exists t :: Runs(actions[..k], t) && Enabled(t, actions[k]) && s == Step(t, actions[k])
  }

  // ---- the invariant ----

  /** The base with the first `n` lines since. */
  function StateAt(base: Snapshot, since: seq<Line>, n: nat): Snapshot
    requires n <= |since|
  {
    ApplyLines(base, since[..n])
  }

  /** A loaded state that is the base with some number of the lines since. */
  ghost predicate IsPrefix(base: Snapshot, since: seq<Line>, l: Snapshot) {
    base.last <= l.last <= base.last + |since| && l == StateAt(base, since, l.last - base.last)
  }

  /** Memory `m` after `lines` over `base`: an outpoint without a line is as it was, and a live last line
      is the live entry. */
  ghost predicate Tells(m: seq<Entry>, base: Snapshot, lines: seq<Line>) {
    Fine(m) && forall k: Outpoint :: TellsAt(m, base, lines, k)
  }

  predicate TellsAt(m: seq<Entry>, base: Snapshot, lines: seq<Line>, k: Outpoint) {
    match LastLine(lines, k)
    case None => LiveAt(m, k) == LiveAt(base.entries, k)
    case Some(x) => Live(x.e) ==> LiveAt(m, k) == Some(x.e)
  }

  ghost predicate MemoryOk(s: Sys) {
    && Numbered(s.base.last + 1, s.since) && HopefulLines(s.since)
    && s.book.seqNo == s.base.last + |s.since|
    && Fine(s.base.entries) && Fine(s.book.entries)
    && |s.past| == |s.since| + 1
    && (forall n :: 0 <= n <= |s.since| ==> Tells(s.past[n], s.base, s.since[..n]))
    && forall k: Outpoint :: LiveAt(s.book.entries, k) == LiveAt(s.past[|s.since|], k)
  }

  /** The lines not yet written are the latest ones, in order, and everything synced is none of them. */
  ghost predicate PendingOk(s: Sys) {
    && |s.book.pending| <= s.book.seqNo
    && Numbered(Written0(s) + 1, s.book.pending)
    && (forall j :: 0 <= j < |s.book.pending| ==> OfHistory(s.base, s.since, s.book.pending[j]))
    && (s.synced <= Written0(s) || s.synced <= s.disk.snap.last)
  }

  /** The number of the last line that is not pending. */
  function Written0(s: Sys): int {
    s.book.seqNo - |s.book.pending|
  }

  /** A line of the history, if it is one after the base. */
  predicate OfHistory(base: Snapshot, since: seq<Line>, x: Line) {
    Hopeful(x.e) && (base.last < x.s <= base.last + |since| ==> x == since[x.s - base.last - 1])
  }

  ghost predicate DiskOk(s: Sys) {
    && Formed(s.disk.journal)
    && Fine(s.disk.snap.entries) && HopefulLines(Readable(s.disk.journal))
    && s.disk.snap.last <= s.base.last
    && forall x :: x in Readable(s.disk.journal) ==> x.s <= s.book.seqNo
  }

  /** What a restart would load without an unterminated end. */
  function KeptLoad(d: Disk): Snapshot {
    Replay(d.snap, Kept(d.journal))
  }

  /** An unterminated line is the next one. */
  ghost predicate OpenFollows(d: Disk) {
    forall x :: x in OpenLine(d.journal) ==> x.s <= KeptLoad(d).last + 1
  }

  /** The unterminated line is one the process started from and will not write again. */
  ghost predicate Fragile(s: Sys) {
    && |s.book.pending| <= |s.since|
    && exists x :: x in OpenLine(s.disk.journal) && KeptLoad(s.disk).last < x.s <= s.base.last
  }

  /** While nothing was lost a restart finds the base with a prefix of the lines since, no shorter than
      what is not pending. */
  ghost predicate LosslessOk(s: Sys) {
    && IsPrefix(s.base, s.since, Load(s.disk))
    && Written0(s) <= Load(s.disk).last
    && ((IsPrefix(s.base, s.since, KeptLoad(s.disk)) && OpenFollows(s.disk)) || Fragile(s))
  }

  ghost predicate Inv(s: Sys) {
    MemoryOk(s) && PendingOk(s) && DiskOk(s) && (s.lost == {} ==> LosslessOk(s))
  }

  lemma EmptyInv()
    ensures Inv(EMPTY)
  {
    assert EMPTY.since[..0] == [];
    assert Readable([]) == [] && Load(EMPTY.disk) == EMPTY.base;
    assert Tells([], EMPTY.base, []);
  }

  // ---- changes in memory ----

  lemma NextTells(m: seq<Entry>, base: Snapshot, lines: seq<Line>, line: Line, now: seq<Entry>, then_: seq<Entry>)
    requires Tells(m, base, lines) && Fine(then_)
    requires forall k: Outpoint :: LiveAt(now, k) == LiveAt(m, k)
    requires forall k :: k != Key(line.e) ==> LiveAt(then_, k) == LiveAt(now, k)
    requires Live(line.e) ==> LiveAt(then_, Key(line.e)) == Some(line.e)
    ensures Tells(then_, base, lines + [line])
  {
    hide LiveAt, Live, Key, Fine;
    assert (lines + [line])[..|lines|] == lines;
    forall k: Outpoint
      ensures TellsAt(then_, base, lines + [line], k)
    {
      assert TellsAt(m, base, lines, k);
    }
  }

  lemma MemoryGrows(s: Sys, book: Book, e: Entry)
    requires MemoryOk(s) && Fine(book.entries) && Hopeful(e) && book.seqNo == s.book.seqNo + 1
    requires forall k :: k != Key(e) ==> LiveAt(book.entries, k) == LiveAt(s.book.entries, k)
    requires Live(e) ==> LiveAt(book.entries, Key(e)) == Some(e)
    ensures MemoryOk(Changed(s, book, e))
  {
    hide Fine, Hopeful, LiveAt, Live, Key, Tells;
    var s' := Changed(s, book, e);
    var n, line := |s.since|, Line(s.book.seqNo + 1, e);
    assert s.since[..n] == s.since && s'.since[..n + 1] == s.since + [line];
    NextTells(s.past[n], s.base, s.since, line, s.book.entries, book.entries);
    forall m | 0 <= m <= n + 1
      ensures Tells(s'.past[m], s.base, s'.since[..m])
    {
      if m <= n { assert s'.since[..m] == s.since[..m]; }
    }
  }

  lemma PrefixGrows(base: Snapshot, since: seq<Line>, x: Line, l: Snapshot)
    requires IsPrefix(base, since, l)
    ensures IsPrefix(base, since + [x], l)
  {
    assert (since + [x])[..l.last - base.last] == since[..l.last - base.last];
  }

  /** A changed or new entry, with its line. */
  lemma ChangedKeeps(s: Sys, book: Book, e: Entry)
    requires Inv(s) && Fine(book.entries) && Hopeful(e)
    requires book.seqNo == s.book.seqNo + 1 && book.pending == s.book.pending + [Line(s.book.seqNo + 1, e)]
    requires forall k :: k != Key(e) ==> LiveAt(book.entries, k) == LiveAt(s.book.entries, k)
    requires Live(e) ==> LiveAt(book.entries, Key(e)) == Some(e)
    ensures Inv(Changed(s, book, e))
  {
    hide MemoryOk, PendingOk, DiskOk, LosslessOk, LiveAt, Fine, Hopeful;
    MemoryGrows(s, book, e);
    PendingGrows(s, book, e);
    DiskKeeps(s, book, e);
    if s.lost == {} { LosslessGrows(s, book, e); }
  }

  lemma PendingGrows(s: Sys, book: Book, e: Entry)
    requires MemoryOk(s) && PendingOk(s) && Hopeful(e)
    requires book.seqNo == s.book.seqNo + 1 && book.pending == s.book.pending + [Line(s.book.seqNo + 1, e)]
    ensures PendingOk(Changed(s, book, e))
  {
    hide Fine, Hopeful, Tells, LiveAt, HopefulLines;
    forall j | 0 <= j < |book.pending|
      ensures OfHistory(s.base, Changed(s, book, e).since, book.pending[j])
    {
      if j < |s.book.pending| { assert OfHistory(s.base, s.since, s.book.pending[j]); }
    }
  }

  lemma DiskKeeps(s: Sys, book: Book, e: Entry)
    requires DiskOk(s) && book.seqNo >= s.book.seqNo
    ensures DiskOk(Changed(s, book, e))
  {
    hide Fine, Readable, HopefulLines, Formed;
  }

  lemma LosslessGrows(s: Sys, book: Book, e: Entry)
    requires LosslessOk(s)
    requires book.seqNo == s.book.seqNo + 1 && |book.pending| == |s.book.pending| + 1
    ensures LosslessOk(Changed(s, book, e))
  {
    hide IsPrefix, OpenFollows, Load, KeptLoad, OpenLine;
    var line := Line(s.book.seqNo + 1, e);
    PrefixGrows(s.base, s.since, line, Load(s.disk));
    if IsPrefix(s.base, s.since, KeptLoad(s.disk)) { PrefixGrows(s.base, s.since, line, KeptLoad(s.disk)); }
  }

  lemma CompactKeeps(s: Sys)
    requires Inv(s)
    ensures Inv(Step(s, Compact))
  {
    hide Fine, LiveAt, LiveOnly, Load, KeptLoad, Readable, OpenLine, Tells, Formed, IsPrefix, OpenFollows, Numbered, HopefulLines;
    LiveOnlyFine(s.book.entries);
    forall k: Outpoint
      ensures LiveAt(LiveOnly(s.book.entries), k) == LiveAt(s.past[|s.since|], k)
    {
      LiveOnlyKeeps(s.book.entries, k);
    }
  }

  // ---- writes ----

  /** Consecutive lines of the history over a prefix of it, none left out, give a prefix. */
  lemma {:induction false} ApplyPrefix(base: Snapshot, since: seq<Line>, l: Snapshot, first: nat, lines: seq<Line>)
    requires IsPrefix(base, since, l) && Numbered(base.last + 1, since)
    requires Numbered(first, lines) && forall j :: 0 <= j < |lines| ==> OfHistory(base, since, lines[j])
    requires first <= l.last + 1 && first + |lines| <= base.last + |since| + 1
    ensures IsPrefix(base, since, ApplyLines(l, lines))
    ensures ApplyLines(l, lines).last == if lines != [] && first + |lines| - 1 > l.last then first + |lines| - 1 else l.last
  {
    hide Upsert, Hopeful;
    if lines != [] {
      var k := |lines| - 1;
      ApplyPrefix(base, since, l, first, lines[..k]);
      var before := ApplyLines(l, lines[..k]);
      assert OfHistory(base, since, lines[k]);
      if lines[k].s > before.last {
        var n := before.last - base.last;
        assert since[..n + 1][..n] == since[..n];
      }
    }
  }

  /** The number of the first pending line. */
  function First(s: Sys): nat
    requires |s.book.pending| <= s.book.seqNo
  {
    s.book.seqNo - |s.book.pending| + 1
  }

  lemma PendingSlice(s: Sys, a: nat, b: nat)
    requires MemoryOk(s) && PendingOk(s) && a <= b <= |s.book.pending|
    ensures Numbered(First(s) + a, s.book.pending[a..b])
    ensures forall j :: 0 <= j < b - a ==> OfHistory(s.base, s.since, s.book.pending[a..b][j])
    ensures HopefulLines(s.book.pending[a..b]) && Ascending(s.book.pending[a..b])
  {
    hide Hopeful, Fine, Tells;
    forall j | 0 <= j < b - a
      ensures OfHistory(s.base, s.since, s.book.pending[a..b][j])
    {
      assert OfHistory(s.base, s.since, s.book.pending[a + j]);
    }
  }

  /** What a write of the first `m` pending lines leaves readable, once the first of them is not needed. */
  lemma AppendedPrefix(s: Sys, m: nat)
    requires MemoryOk(s) && PendingOk(s) && m <= |s.book.pending|
    requires var front := Replay(s.disk.snap, Front(s.disk.journal, s.book.pending[..m]));
      && IsPrefix(s.base, s.since, front) && Written0(s) <= front.last
      && (m > 0 && !Terminated(s.disk.journal) ==> First(s) <= front.last)
    ensures var after := Replay(s.disk.snap, Appended(s.disk.journal, s.book.pending[..m]));
      && IsPrefix(s.base, s.since, after)
      && after.last >= Replay(s.disk.snap, Front(s.disk.journal, s.book.pending[..m])).last
      && (m > 0 ==> after.last >= First(s) + m - 1)
  {
    hide Readable, Fine, Tells, IsPrefix, ApplyLines, OfHistory, Appended, Kept, HopefulLines;
    var w := s.book.pending[..m];
    var rest := Rest(s.disk.journal, w);
    AppendReads(s.disk.journal, w);
    ApplyConcat(s.disk.snap, Readable(Front(s.disk.journal, w)), rest);
    var from := m - |rest|;
    assert rest == s.book.pending[from..m];
    PendingSlice(s, from, m);
    ApplyPrefix(s.base, s.since, Replay(s.disk.snap, Front(s.disk.journal, w)), First(s) + from, rest);
  }

  /** The rest of `m` lines written onto an unterminated end. */
  function Tail(s: Sys, m: nat): seq<Line>
    requires m <= |s.book.pending|
  {
    s.book.pending[if m == 0 then 0 else 1..m]
  }

  /** What a restart knows after such a write. */
  lemma KnownAfter(s: Sys, m: nat, d': Disk, x: Line)
    requires MemoryOk(s) && PendingOk(s) && m <= |s.book.pending|
    requires d'.snap == s.disk.snap && Readable(d'.journal) == Readable(Kept(s.disk.journal)) + Tail(s, m)
    ensures Known(d', x) ==> x.s <= KeptLoad(s.disk).last || x in Tail(s, m)
    ensures x in Tail(s, m) ==> x.s <= Load(d').last && x in s.book.pending
    ensures Tail(s, m) == [] ==> Load(d') == KeptLoad(s.disk)
  {
    hide Readable, Fine, Tells, HopefulLines, ApplyLines, Taken, Kept, OfHistory, LiveAt, Numbered;
    var kept := Readable(Kept(s.disk.journal));
    PendingSlice(s, if m == 0 then 0 else 1, m);
    TakenConcat(s.disk.snap, kept, Tail(s, m), x);
    ApplyIsNewest(s.disk.snap, kept);
    ApplyIsNewest(s.disk.snap, kept + Tail(s, m));
    if x in Taken(s.disk.snap, kept) { TakenIsOld(s.disk.snap, kept, x); }
    assert Tail(s, m) == [] ==> kept + Tail(s, m) == kept;
  }

  /** What the unterminated line adds to a load. */
  lemma OpenAdds(d: Disk)
    ensures OpenLine(d.journal) == [] ==> Load(d) == KeptLoad(d)
    ensures forall y :: y in OpenLine(d.journal) ==>
      if y.s > KeptLoad(d).last then y in Taken(d.snap, Readable(d.journal)) && Load(d).last == y.s else Load(d) == KeptLoad(d)
  {
    hide Readable, ApplyLines, Taken, Kept, OpenLine;
    var kept, open_ := Readable(Kept(d.journal)), OpenLine(d.journal);
    KeptReads(d.journal);
    OpenIsShort(d.journal);
    assert open_ == [] ==> kept + open_ == kept;
    forall y | y in open_
      ensures if y.s > KeptLoad(d).last then y in Taken(d.snap, Readable(d.journal)) && Load(d).last == y.s else Load(d) == KeptLoad(d)
    {
      assert open_ == [y];
      TakenSnoc(d.snap, kept, y);
      ApplySnoc(d.snap, kept, y);
    }
  }

  lemma PendingNumbers(s: Sys, x: Line)
    requires MemoryOk(s) && PendingOk(s) && x in s.book.pending
    ensures First(s) <= x.s
  {
    hide Fine, Tells, HopefulLines, OfHistory, LiveAt;
  }

  /** The write `m` of `s` onto an unterminated end, with nothing missing after it. */
  ghost predicate Harmless(s: Sys, m: nat, d': Disk, pending: seq<Line>) {
    && MemoryOk(s) && PendingOk(s) && LosslessOk(s) && m <= |s.book.pending|
    && d'.snap == s.disk.snap && Readable(d'.journal) == Readable(Kept(s.disk.journal)) + Tail(s, m)
    && (pending == [] || pending == s.book.pending)
    && Missing(s.disk, s.book.pending[..m], d', pending) == {}
  }

  lemma OpenIsPending(s: Sys, m: nat, d': Disk, pending: seq<Line>, x: Line)
    requires Harmless(s, m, d', pending) && x in OpenLine(s.disk.journal) && x.s > KeptLoad(s.disk).last
    ensures x in s.book.pending
  {
    hide MemoryOk, PendingOk, LosslessOk, Readable, Kept, OpenLine, Load, KeptLoad, Known, Taken, Tail;
    KnownAfter(s, m, d', x);
    OpenAdds(s.disk);
    assert x !in Missing(s.disk, s.book.pending[..m], d', pending);
  }

  lemma FirstIsKnown(s: Sys, m: nat, d': Disk, pending: seq<Line>)
    requires Harmless(s, m, d', pending) && m > 0
    ensures First(s) <= KeptLoad(s.disk).last || (m == 1 && pending != [])
  {
    hide LosslessOk, Readable, Kept, Load, KeptLoad, Known, Taken, OfHistory, Fine, Tells, LiveAt, HopefulLines;
    var x := s.book.pending[0];
    KnownAfter(s, m, d', x);
    assert x in s.book.pending[..m];
    assert x !in Missing(s.disk, s.book.pending[..m], d', pending);
    PendingSlice(s, 0, m);
    if m > 1 {
      assert Tail(s, m)[0] == s.book.pending[1];
      KnownAfter(s, m, d', s.book.pending[1]);
    }
  }

  lemma NotFragile(s: Sys, m: nat, d': Disk, pending: seq<Line>)
    requires Harmless(s, m, d', pending)
    ensures !Fragile(s)
  {
    hide PendingOk, LosslessOk, Readable, Kept, OpenLine, Load, KeptLoad, Known, Taken, Tail, Missing, Fine, Tells, LiveAt, HopefulLines;
    if Fragile(s) {
      var x :| x in OpenLine(s.disk.journal) && KeptLoad(s.disk).last < x.s <= s.base.last;
      OpenIsPending(s, m, d', pending, x);
      PendingNumbers(s, x);
    }
  }

  /** Then the terminated part is a prefix that reaches everything not pending, and the first pending
      line, if put down, was not needed or was all. */
  lemma GlueHarmless(s: Sys, m: nat, d': Disk, pending: seq<Line>)
    requires Harmless(s, m, d', pending)
    ensures IsPrefix(s.base, s.since, KeptLoad(s.disk)) && Written0(s) <= KeptLoad(s.disk).last
    ensures m > 0 ==> First(s) <= KeptLoad(s.disk).last || (m == 1 && pending != [])
  {
    hide MemoryOk, PendingOk, Readable, Kept, OpenLine, Load, KeptLoad, Known, Taken, Tail, Missing, IsPrefix, Fragile;
    NotFragile(s, m, d', pending);
    if m > 0 { FirstIsKnown(s, m, d', pending); }
    OpenAdds(s.disk);
    if OpenLine(s.disk.journal) != [] {
      var x := OpenLine(s.disk.journal)[0];
      if x.s > KeptLoad(s.disk).last {
        OpenIsPending(s, m, d', pending, x);
        PendingNumbers(s, x);
      }
    }
  }

  lemma TerminatedReads(journal: seq<Item>)
    requires Terminated(journal)
    ensures Kept(journal) == journal && OpenLine(journal) == []
  {}

  /** After a write that loses nothing. */
  lemma AppendLossless(s: Sys)
    requires MemoryOk(s) && PendingOk(s) && LosslessOk(s) && Step(s, Append).lost == {}
    ensures LosslessOk(Step(s, Append))
  {
    hide Readable, Fine, Tells, LiveAt, HopefulLines, OfHistory, IsPrefix, Appended, Kept, OpenLine, ApplyLines, Missing, Taken;
    var n, s' := |s.book.pending|, Step(s, Append);
    assert s.book.pending[..n] == s.book.pending;
    AppendReads(s.disk.journal, s.book.pending);
    if n > 0 {
      if Terminated(s.disk.journal) {
        AppendedPrefix(s, n);
      } else {
        GlueHarmless(s, n, s'.disk, []);
        AppendedPrefix(s, n);
      }
      TerminatedReads(s'.disk.journal);
    } else {
      NothingAppended(s.disk.journal);
      assert s'.disk == s.disk;
    }
  }

  lemma NothingAppended(journal: seq<Item>)
    ensures Appended(journal, []) == journal
  {}

  /** After a write that stops at the end of a line. */
  lemma CutBefore(s: Sys, k: nat)
    requires MemoryOk(s) && PendingOk(s) && LosslessOk(s) && 0 < k <= |s.book.pending|
    requires Step(s, AppendCut(k, Before)).lost == {}
    ensures LosslessOk(Step(s, AppendCut(k, Before)))
  {
    hide Readable, Fine, Tells, LiveAt, HopefulLines, OfHistory, IsPrefix, Appended, Kept, OpenLine, ApplyLines, Missing, Taken;
    var s' := Step(s, AppendCut(k, Before));
    AppendReads(s.disk.journal, s.book.pending[..k]);
    TerminatedReads(s'.disk.journal);
    if Terminated(s.disk.journal) {
      AppendedPrefix(s, k);
    } else {
      GlueHarmless(s, k, s'.disk, s.book.pending);
      if First(s) <= KeptLoad(s.disk).last {
        AppendedPrefix(s, k);
      } else {
        KnownAfter(s, k, s'.disk, s.book.pending[0]);
      }
    }
  }

  /** After a write that stops within a line, the terminated part. */
  lemma CutFront(s: Sys, k: nat, stop: Stop, d': Disk)
    requires MemoryOk(s) && PendingOk(s) && LosslessOk(s) && k < |s.book.pending| && !stop.Before?
    requires d' == s.disk.(journal := Interrupted(s.disk.journal, s.book.pending, k, stop))
    requires Missing(s.disk, s.book.pending[..PutDown(k, stop)], d', s.book.pending) == {} && (k > 0 || Terminated(s.disk.journal))
    ensures var j := Appended(s.disk.journal, s.book.pending[..k]);
      && Terminated(j) && IsPrefix(s.base, s.since, Replay(s.disk.snap, j))
      && Written0(s) <= Replay(s.disk.snap, j).last
      && (stop.BeforeNewline? ==> First(s) + k <= Replay(s.disk.snap, j).last + 1)
  {
    hide Readable, Fine, Tells, LiveAt, HopefulLines, OfHistory, IsPrefix, Appended, Kept, OpenLine, ApplyLines, Missing, Taken, Interrupted;
    AppendReads(s.disk.journal, s.book.pending[..k]);
    if k == 0 {
      assert s.book.pending[..0] == [];
      NothingAppended(s.disk.journal);
    } else if Terminated(s.disk.journal) {
      AppendedPrefix(s, k);
    } else {
      CutReads(s, k, stop, d');
      GlueHarmless(s, PutDown(k, stop), d', s.book.pending);
      if First(s) <= KeptLoad(s.disk).last {
        AppendedPrefix(s, k);
      } else {
        var kept := Readable(Kept(s.disk.journal));
        assert s.book.pending[..1][1..] == [] && kept + [] == kept;
      }
    }
  }

  lemma CutReads(s: Sys, k: nat, stop: Stop, d': Disk)
    requires 0 < k < |s.book.pending| && !stop.Before? && !Terminated(s.disk.journal)
    requires d' == s.disk.(journal := Interrupted(s.disk.journal, s.book.pending, k, stop))
    ensures Readable(d'.journal) == Readable(Kept(s.disk.journal)) + Tail(s, PutDown(k, stop))
  {
    hide Readable, Appended, Kept, Interrupted;
    AppendReads(s.disk.journal, s.book.pending[..k]);
    InterruptedReads(s.disk.journal, s.book.pending, k, stop);
    TailSplits(s, k);
    assert Readable(Kept(s.disk.journal)) + Tail(s, k) + [] == Readable(Kept(s.disk.journal)) + Tail(s, k);
  }

  lemma TailSplits(s: Sys, k: nat)
    requires 0 < k < |s.book.pending|
    ensures s.book.pending[..k][1..] == Tail(s, k) && Tail(s, k) + [s.book.pending[k]] == Tail(s, k + 1)
    ensures Tail(s, k) + [] == Tail(s, k)
  {}

  /** After a write that stops within a line it began on its own. */
  lemma CutInside(s: Sys, k: nat, d': Disk)
    requires MemoryOk(s) && PendingOk(s) && LosslessOk(s) && k < |s.book.pending|
    requires d' == s.disk.(journal := Interrupted(s.disk.journal, s.book.pending, k, Within))
    requires Missing(s.disk, s.book.pending[..k], d', s.book.pending) == {} && (k > 0 || Terminated(s.disk.journal))
    ensures IsPrefix(s.base, s.since, Load(d')) && Written0(s) <= Load(d').last && KeptLoad(d') == Load(d') && OpenLine(d'.journal) == []
  {
    hide MemoryOk, PendingOk, LosslessOk, Readable, IsPrefix, Appended, Kept, ApplyLines, Missing, Interrupted, Terminated, OpenLine;
    var j := Appended(s.disk.journal, s.book.pending[..k]);
    InterruptedReads(s.disk.journal, s.book.pending, k, Within);
    InterruptedOpen(s.disk.journal, s.book.pending, k, Within);
    CutFront(s, k, Within, d');
    TerminatedReads(j);
    assert Readable(j) + [] == Readable(j);
  }

  /** After a write that stops before the newline of such a line. */
  lemma CutAtNewline(s: Sys, k: nat, d': Disk)
    requires MemoryOk(s) && PendingOk(s) && LosslessOk(s) && k < |s.book.pending|
    requires d' == s.disk.(journal := Interrupted(s.disk.journal, s.book.pending, k, BeforeNewline))
    requires Missing(s.disk, s.book.pending[..k + 1], d', s.book.pending) == {} && (k > 0 || Terminated(s.disk.journal))
    ensures IsPrefix(s.base, s.since, Load(d')) && IsPrefix(s.base, s.since, KeptLoad(d')) && OpenFollows(d')
    ensures Written0(s) <= Load(d').last
  {
    hide LosslessOk, Readable, Fine, Tells, LiveAt, HopefulLines, OfHistory, IsPrefix, Appended, Kept, ApplyLines, Missing, Interrupted, Terminated, OpenLine;
    var j, x := Appended(s.disk.journal, s.book.pending[..k]), s.book.pending[k];
    InterruptedReads(s.disk.journal, s.book.pending, k, BeforeNewline);
    InterruptedOpen(s.disk.journal, s.book.pending, k, BeforeNewline);
    CutFront(s, k, BeforeNewline, d');
    TerminatedReads(j);
    PendingSlice(s, k, k + 1);
    assert s.book.pending[k..k + 1] == [x];
    ApplyPrefix(s.base, s.since, Replay(s.disk.snap, j), First(s) + k, [x]);
    ApplyConcat(s.disk.snap, Readable(j), [x]);
  }

  /** After a write that only makes an unterminated end worse. */
  lemma CutOntoOpen(s: Sys, stop: Stop, d': Disk)
    requires MemoryOk(s) && PendingOk(s) && LosslessOk(s) && s.book.pending != [] && !stop.Before? && !Terminated(s.disk.journal)
    requires d' == s.disk.(journal := Interrupted(s.disk.journal, s.book.pending, 0, stop))
    requires Missing(s.disk, s.book.pending[..PutDown(0, stop)], d', s.book.pending) == {}
    ensures IsPrefix(s.base, s.since, Load(d')) && Written0(s) <= Load(d').last && KeptLoad(d') == Load(d') && OpenLine(d'.journal) == []
  {
    hide MemoryOk, PendingOk, LosslessOk, Readable, IsPrefix, Appended, Kept, ApplyLines, Missing, Interrupted, Terminated, OpenLine;
    InterruptedReads(s.disk.journal, s.book.pending, 0, stop);
    InterruptedOpen(s.disk.journal, s.book.pending, 0, stop);
    assert s.book.pending[..0] == [];
    NothingAppended(s.disk.journal);
    var kept := Readable(Kept(s.disk.journal));
    assert kept + [] == kept;
    assert Tail(s, PutDown(0, stop)) == [];
    GlueHarmless(s, PutDown(0, stop), d', s.book.pending);
    KnownAfter(s, PutDown(0, stop), d', s.book.pending[0]);
  }

  lemma CutWithin(s: Sys, k: nat, stop: Stop, s': Sys)
    requires MemoryOk(s) && PendingOk(s) && LosslessOk(s) && k < |s.book.pending| && !stop.Before?
    requires s' == Written(s, Interrupted(s.disk.journal, s.book.pending, k, stop), s.book.pending[..PutDown(k, stop)], s.book.pending)
    requires s'.lost == {}
    ensures LosslessOk(s')
  {
    hide MemoryOk, PendingOk, LosslessOk, IsPrefix, Missing, Interrupted, Terminated, Load, KeptLoad, OpenFollows, OpenLine;
    if k == 0 && !Terminated(s.disk.journal) {
      CutOntoOpen(s, stop, s'.disk);
      NoOpenLine(s'.disk);
    } else if stop.Within? {
      CutInside(s, k, s'.disk);
      NoOpenLine(s'.disk);
    } else {
      CutAtNewline(s, k, s'.disk);
    }
    LosslessFrom(s, s');
  }

  lemma NoOpenLine(d: Disk)
    requires OpenLine(d.journal) == []
    ensures OpenFollows(d)
  {}

  lemma LosslessFrom(s: Sys, s': Sys)
    requires s'.base == s.base && s'.since == s.since && Written0(s') == Written0(s)
    requires IsPrefix(s.base, s.since, Load(s'.disk)) && Written0(s) <= Load(s'.disk).last
    requires IsPrefix(s.base, s.since, KeptLoad(s'.disk)) && OpenFollows(s'.disk)
    ensures LosslessOk(s')
  {
    hide IsPrefix, Load, KeptLoad, OpenFollows;
  }

  lemma InterruptedOpen(journal: seq<Item>, lines: seq<Line>, k: nat, stop: Stop)
    requires k < |lines| && !stop.Before?
    ensures OpenLine(Interrupted(journal, lines, k, stop)) ==
      if stop.BeforeNewline? && Terminated(Appended(journal, lines[..k])) then [lines[k]] else []
  {
    hide Appended;
  }

  /** The journal after a write holds old lines and pending ones. */
  lemma WriteDiskOk(s: Sys, journal: seq<Item>, lines: seq<Line>, pending: seq<Line>)
    requires DiskOk(s) && MemoryOk(s) && PendingOk(s) && Formed(journal)
    requires forall x :: x in Readable(journal) ==> x in Readable(s.disk.journal) || x in s.book.pending
    ensures DiskOk(Written(s, journal, lines, pending))
  {
    hide Readable, Fine, Tells, LiveAt, Formed, Missing;
    PendingSlice(s, 0, |s.book.pending|);
    assert s.book.pending[0..] == s.book.pending;
    var r := Readable(journal);
    forall i | 0 <= i < |r|
      ensures Hopeful(r[i].e) && r[i].s <= s.book.seqNo
    {
      assert r[i] in r;
    }
  }

  lemma AppendKeeps(s: Sys)
    requires Inv(s)
    ensures Inv(Step(s, Append))
  {
    hide Readable, Fine, Tells, LiveAt, HopefulLines, LosslessOk, Appended, Kept, Missing, Formed, OfHistory;
    AppendReads(s.disk.journal, s.book.pending);
    KeptReads(s.disk.journal);
    WriteDiskOk(s, Appended(s.disk.journal, s.book.pending), s.book.pending, []);
    if Step(s, Append).lost == {} { AppendLossless(s); }
  }

  lemma CutKeeps(s: Sys, k: nat, stop: Stop)
    requires Inv(s) && Enabled(s, AppendCut(k, stop))
    ensures Inv(Step(s, AppendCut(k, stop)))
  {
    hide Readable, Fine, Tells, LiveAt, HopefulLines, LosslessOk, Appended, Kept, Missing, Formed, OfHistory, Interrupted, Terminated;
    var journal := Interrupted(s.disk.journal, s.book.pending, k, stop);
    InterruptedReads(s.disk.journal, s.book.pending, k, stop);
    forall x | x in Readable(journal)
      ensures x in Readable(s.disk.journal) || x in s.book.pending
    {
      InterruptedLines(s.disk.journal, s.book.pending, k, stop, x);
    }
    WriteDiskOk(s, journal, s.book.pending[..PutDown(k, stop)], s.book.pending);
    if Step(s, AppendCut(k, stop)).lost == {} {
      if !stop.Before? {
        CutWithin(s, k, stop, Step(s, AppendCut(k, stop)));
      } else if k > 0 {
        CutBefore(s, k);
      } else {
        assert s.book.pending[..k] == [];
        NothingAppended(s.disk.journal);
        SameDiskLossless(s, Step(s, AppendCut(k, stop)));
      }
    }
  }

  lemma SameDiskLossless(s: Sys, s': Sys)
    requires LosslessOk(s) && s'.disk == s.disk && s'.book == s.book && s'.base == s.base && s'.since == s.since
    ensures LosslessOk(s')
  {
    hide IsPrefix, Load, KeptLoad, OpenFollows, OpenLine;
  }

  // ---- snapshots and restarts ----

  lemma RebasedMemory(s: Sys, base: Snapshot)
    requires Fine(base.entries) && s.book.seqNo == base.last && Fine(s.book.entries)
    requires forall k: Outpoint :: LiveAt(s.book.entries, k) == LiveAt(base.entries, k)
    ensures MemoryOk(Rebased(s, base))
  {
    hide Fine, LiveAt;
    assert Rebased(s, base).since[..0] == [];
  }

  lemma SelfPrefix(base: Snapshot)
    ensures IsPrefix(base, [], base)
  {}

  /** Every line on disk is stale for a new snapshot. */
  lemma InstallKeeps(s: Sys, a: Action)
    requires Inv(s) && (a.SnapshotAll? || a.InstallOnly?)
    ensures Inv(Step(s, a))
  {
    hide MemoryOk, LosslessOk, LiveAt, Fine, Readable, HopefulLines, Formed;
    var s' := Step(s, a);
    NoItems();
    MemoryFine(s);
    InstalledPending(s, s'.disk.snap);
    RebasedMemory(s', s'.disk.snap);
    assert Rebased(s', s'.disk.snap) == s';
    StaleIsLossless(s'.disk);
    SelfPrefix(s'.disk.snap);
    InstalledLossless(s');
  }

  lemma InstalledPending(s: Sys, snap: Snapshot)
    requires PendingOk(s)
    ensures forall j :: 0 <= j < |s.book.pending| ==> OfHistory(snap, [], s.book.pending[j])
  {
    hide Hopeful;
    forall j | 0 <= j < |s.book.pending|
      ensures OfHistory(snap, [], s.book.pending[j])
    {
      assert OfHistory(s.base, s.since, s.book.pending[j]);
    }
  }

  lemma StaleIsLossless(d: Disk)
    requires forall x :: x in Readable(d.journal) ==> x.s <= d.snap.last
    ensures Load(d) == d.snap && KeptLoad(d) == d.snap && OpenFollows(d)
  {
    hide Readable, Kept, OpenLine;
    KeptReads(d.journal);
    StaleIgnored(d.snap, Readable(d.journal));
    StaleIgnored(d.snap, Readable(Kept(d.journal)));
  }

  lemma InstalledLossless(s: Sys)
    requires s.base == s.disk.snap && s.since == [] && s.book.seqNo == s.base.last
    requires Load(s.disk) == s.base && KeptLoad(s.disk) == s.base && OpenFollows(s.disk) && IsPrefix(s.base, [], s.base)
    ensures LosslessOk(s)
  {
    hide Load, KeptLoad, OpenFollows, IsPrefix;
  }

  lemma NoItems()
    ensures Readable([]) == [] && Formed([]) && HopefulLines([])
  {}

  lemma CrashKeeps(s: Sys)
    requires Inv(s)
    ensures Inv(Step(s, Crash))
  {
    hide Readable, Fine, LiveAt, HopefulLines, Tells, Kept, OpenLine, Hopeful, Formed, IsPrefix, ApplyLines;
    var s', l := Step(s, Crash), Load(s.disk);
    ApplyFine(s.disk.snap, Readable(s.disk.journal));
    RebasedMemory(s.(book := Book(l.entries, [], l.last)), l);
    ApplyIsNewest(s.disk.snap, Readable(s.disk.journal));
    SelfPrefix(l);
    OpenAdds(s.disk);
    if OpenLine(s.disk.journal) != [] {
      var x := OpenLine(s.disk.journal)[0];
      if x.s > KeptLoad(s.disk).last { assert Fragile(s'); }
    }
    OpenIsShort(s.disk.journal);
  }

  lemma StepKeeps(s: Sys, a: Action)
    requires Inv(s) && Enabled(s, a)
    ensures Inv(Step(s, a))
  {
    hide Inv, Fine, LiveAt, Hopeful, Follows, Live, Key;
    match a
    case Change(i, e) => MemoryFine(s); ChangeFine(s.book.entries, i, e); ChangedKeeps(s, Put(s.book, i, e), e);
    case Track(e) => MemoryFine(s); TrackFine(s.book.entries, e); ChangedKeeps(s, Push(s.book, e), e);
    case Compact => CompactKeeps(s);
    case Append => AppendKeeps(s);
    case AppendCut(k, stop) => CutKeeps(s, k, stop);
    case SnapshotAll => InstallKeeps(s, a);
    case InstallOnly => InstallKeeps(s, a);
    case Crash => CrashKeeps(s);
  }

  lemma MemoryFine(s: Sys)
    requires Inv(s)
    ensures Fine(s.book.entries)
  {}

  lemma {:induction false} RunsKeepInv(actions: seq<Action>, s: Sys)
    requires Runs(actions, s)
    ensures Inv(s)
  {
    hide Inv, Step, Enabled;
    if actions == [] {
      EmptyInv();
    } else {
      var k := |actions| - 1;
      var t :| Runs(actions[..k], t) && Enabled(t, actions[k]) && s == Step(t, actions[k]);
      RunsKeepInv(actions[..k], t);
      StepKeeps(t, actions[k]);
    }
  }

  // ---- what a restart finds ----

  /** The number of changes since the base that a restart finds. */
  function Reached(s: Sys): int {
    Load(s.disk).last - s.base.last
  }

  /** A later change to a done entry hides the live entry of the same outpoint. */
  predicate Shadowed(m: seq<Entry>, lines: seq<Line>, k: Outpoint) {
    LiveAt(m, k).Some? && LastLine(lines, k).Some? && !Live(LastLine(lines, k).value.e)
  }

  /** As long as no line was lost since the base, a restart finds the memory of some moment no earlier
      than the last write that reported success: at every outpoint its live entry there, if and only if
      the last line of the outpoint up to that moment is not that of a done entry while another is
      live. */
  lemma LosslessRecovery(actions: seq<Action>, s: Sys, k: Outpoint)
    requires Runs(actions, s) && s.lost == {}
    ensures s.synced <= Load(s.disk).last && 0 <= Reached(s) <= |s.since| < |s.past|
    ensures LiveAt(Load(s.disk).entries, k) == LiveAt(s.past[Reached(s)], k)
       <==> !Shadowed(s.past[Reached(s)], s.since[..Reached(s)], k)
    ensures LiveAt(Load(s.disk).entries, k).Some? ==> LiveAt(Load(s.disk).entries, k) == LiveAt(s.past[Reached(s)], k)
  {
    hide Load, KeptLoad, Readable, LiveAt, OpenFollows, Runs, ApplyLines, LastLine;
    RunsKeepInv(actions, s);
    var n := Reached(s);
    SnapshotBelow(s.disk);
    FreshPrefix(s, n);
    FreshApplied(s.base, s.since[..n], k);
    assert Tells(s.past[n], s.base, s.since[..n]);
    assert TellsAt(s.past[n], s.base, s.since[..n], k);
  }

  lemma SnapshotBelow(d: Disk)
    ensures d.snap.last <= Load(d).last
  {
    ApplyIsNewest(d.snap, Readable(d.journal));
  }

  lemma FreshPrefix(s: Sys, n: nat)
    requires MemoryOk(s) && n <= |s.since|
    ensures HopefulLines(s.since[..n]) && Numbered(s.base.last + 1, s.since[..n]) && Fine(s.base.entries)
  {
    hide Fine, Hopeful, Tells, LiveAt;
  }

  /** After a write that reported success and lost nothing the moment is now. */
  lemma LosslessSynced(actions: seq<Action>, s: Sys, k: Outpoint)
    requires Runs(actions, s) && s.lost == {} && s.synced == s.book.seqNo
    ensures |s.past| == |s.since| + 1
    ensures LiveAt(Load(s.disk).entries, k) == LiveAt(s.book.entries, k) <==> !Shadowed(s.book.entries, s.since, k)
  {
    hide Load, KeptLoad, Readable, LiveAt, OpenFollows, Runs, ApplyLines, LastLine, Tells, LosslessOk;
    LosslessRecovery(actions, s, k);
    RunsKeepInv(actions, s);
    ReachedAll(s);
    assert s.since[..|s.since|] == s.since;
  }

  lemma ReachedAll(s: Sys)
    requires Inv(s) && s.lost == {} && s.synced == s.book.seqNo && s.synced <= Load(s.disk).last
    ensures Reached(s) == |s.since|
  {
    hide Load, KeptLoad, Fine, Tells, OpenFollows;
  }

  /** After every run, whatever was lost, what a restart loads has at most one live entry per outpoint,
      and none that was given up. */
  lemma RestartIsFine(actions: seq<Action>, s: Sys)
    requires Runs(actions, s)
    ensures Fine(Load(s.disk).entries)
  {
    hide Readable, Fine, HopefulLines, Runs, ApplyLines, MemoryOk, PendingOk, LosslessOk;
    RunsKeepInv(actions, s);
    ApplyFine(s.disk.snap, Readable(s.disk.journal));
  }

  // ---- a live entry lost ----

  lemma RunsSnoc(actions: seq<Action>, s: Sys, a: Action)
    requires Runs(actions, s) && Enabled(s, a)
    ensures Runs(actions + [a], Step(s, a))
  {
    hide Enabled, Step;
    assert (actions + [a])[..|actions|] == actions;
  }

  ghost predicate Reachable(s: Sys) {
    exists actions :: Runs(actions, s)
  }

  ghost function Next(s: Sys, a: Action): (s': Sys)
    requires Reachable(s) && Enabled(s, a)
    ensures Reachable(s') && s' == Step(s, a)
  {
    hide Runs, Enabled, Step;
    var actions :| Runs(actions, s);
    RunsSnoc(actions, s, a);
    Step(s, a)
  }

  /** An output tracked, lost in a reorganisation and tracked again, and a rejection that reaches its
      first entry. */
  lemma TwinRun(e: Entry, hit: Entry) returns (s: Sys)
    requires Live(e) && Hopeful(e) && Follows(e.(slashed := true), hit)
    ensures Reachable(s) && s.disk == EMPTY.disk && s.lost == {} && s.book.entries == [hit, e] && s.book.seqNo == 4
    ensures s.book.pending == s.since == [Line(1, e), Line(2, e.(slashed := true)), Line(3, e), Line(4, hit)]
  {
    hide Reachable, Runs, Key, Readable, ApplyLines;
    var gone := e.(slashed := true);
    var t := GoneRun(e);
    assert Key(gone) == Key(e) by { GoneKey(e); }
    var u := Next(t, Track(e));
    assert u.book.entries == [gone, e];
    s := Next(u, Change(0, hit));
    assert s.book.entries == [hit, e];
  }

  lemma GoneRun(e: Entry) returns (s: Sys)
    requires Live(e) && Hopeful(e)
    ensures Reachable(s) && s.disk == EMPTY.disk && s.lost == {} && s.book.entries == [e.(slashed := true)] && s.book.seqNo == 2
    ensures s.book.pending == s.since == [Line(1, e), Line(2, e.(slashed := true))]
  {
    hide Reachable, Runs, Readable, ApplyLines;
    StartReachable();
    var t := Next(EMPTY, Track(e));
    assert t.book.entries == [e];
    s := Next(t, Change(0, e.(slashed := true)));
  }

  lemma GoneKey(e: Entry)
    ensures Key(e.(slashed := true)) == Key(e)
  {}

  /** After the next write a restart no longer has the live entry. */
  lemma ShadowedRun(e: Entry, m: Message) returns (s: Sys)
    requires Live(e) && e.orphanRetries == 0 && m.orphan
    ensures Reachable(s) && s.lost == {} && s.synced == s.book.seqNo
    ensures LiveAt(s.book.entries, Key(e)) == Some(e) && LiveAt(Load(s.disk).entries, Key(e)) == None
  {
    hide Reachable, Runs, Load, Readable, ApplyLines, Missing, Rejected, Appended;
    var hit := Rejected(e.(slashed := true), m, 1, 0);
    HitIsDone(e, m);
    var t := TwinRun(e, hit);
    FreshAppend(t);
    s := Next(t, Append);
    LastOfTwo(hit, e);
    ShadowedRestart(s, e, hit);
  }

  lemma HitIsDone(e: Entry, m: Message)
    requires m.orphan
    ensures var hit := Rejected(e.(slashed := true), m, 1, 0); Follows(e.(slashed := true), hit) && !Live(hit) && Key(hit) == Key(e)
  {
    RejectedFollows(e.(slashed := true), m, 1, 0);
  }

  lemma ShadowedRestart(s: Sys, e: Entry, hit: Entry)
    requires Reachable(s) && s.lost == {} && s.synced == s.book.seqNo
    requires s.book.entries == [hit, e] && s.since != [] && s.since[|s.since| - 1].e == hit
    requires Live(e) && !Live(hit) && Key(hit) == Key(e)
    ensures LiveAt(s.book.entries, Key(e)) == Some(e) && LiveAt(Load(s.disk).entries, Key(e)) == None
  {
    hide Runs, Load, Readable, Key, Live;
    LastOfTwo(hit, e);
    var actions :| Runs(actions, s);
    LosslessSynced(actions, s, Key(e));
    LosslessRecovery(actions, s, Key(e));
    RunsKeepInv(actions, s);
    ReachedAll(s);
    PastIsNow(s, Key(e));
  }

  lemma PastIsNow(s: Sys, k: Outpoint)
    requires Inv(s)
    ensures |s.past| == |s.since| + 1 && LiveAt(s.past[|s.since|], k) == LiveAt(s.book.entries, k)
  {}

  lemma StartReachable()
    ensures Reachable(EMPTY)
  {
    assert Runs([], EMPTY);
  }

  /** The first write of a process on an empty journal loses nothing. */
  lemma FreshAppend(s: Sys)
    requires s.disk == Disk(Snapshot([], 0), []) && s.lost == {} && Ascending(s.book.pending)
    requires forall x :: x in s.book.pending ==> x.s > 0
    ensures Step(s, Append).lost == {}
  {
    hide Known, Appended;
    AppendToTerminated(s.disk, s.book.pending);
    NoItems();
    assert Load(s.disk).last == 0;
  }

  lemma LastOfTwo(a: Entry, b: Entry)
    ensures LastIndex([a, b], Key(b)) == Some(1)
  {}
}
