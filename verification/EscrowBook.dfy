/** The entry vector with its journal, the files on disk, and what each write leaves for a restart. */
module EscrowBook {
  import opened EscrowEntry
  import opened Wrappers

  /** One journal line: the whole entry after a change. */
  datatype Line = Line(s: nat, e: Entry)

  /** Entries in memory, lines not yet written, and the number of the last line. */
  datatype Book = Book(entries: seq<Entry>, pending: seq<Line>, seqNo: nat)

  /** Every change of an entry appends its line. */
  function Put(b: Book, i: nat, e: Entry): Book
    requires i < |b.entries|
  {
    Book(b.entries[i := e], b.pending + [Line(b.seqNo + 1, e)], b.seqNo + 1)
  }

  function Push(b: Book, e: Entry): Book {
    Book(b.entries + [e], b.pending + [Line(b.seqNo + 1, e)], b.seqNo + 1)
  }

  /** Done entries dropped, order kept. */
  function LiveOnly(entries: seq<Entry>): (r: seq<Entry>)
    ensures forall i :: 0 <= i < |r| ==> Live(r[i]) && r[i] in entries
    ensures forall i :: 0 <= i < |entries| && Live(entries[i]) ==> entries[i] in r
  {
    if entries == [] then []
    else
      var k := |entries| - 1;
      assert entries == entries[..k] + [entries[k]];
      LiveOnly(entries[..k]) + if Live(entries[k]) then [entries[k]] else []
  }

  ghost predicate DistinctKeys(entries: seq<Entry>) {
    forall i, j :: 0 <= i < j < |entries| ==> Key(entries[i]) != Key(entries[j])
  }

  // ---- disk ----

  datatype Snapshot = Snapshot(entries: seq<Entry>, last: nat)

  /** What stands in the journal: a line with its newline; the complete text of a line whose newline
      was not written; a piece of text without newline; unreadable text with its newline. */
  datatype Item = Whole(line: Line) | Open(line: Line) | Torn | Garbage

  datatype Disk = Disk(snap: Snapshot, journal: seq<Item>)

  predicate Ends(item: Item) {
    item.Whole? || item.Garbage?
  }

  /** The journal ends with a newline, or is empty. */
  predicate Terminated(journal: seq<Item>) {
    journal == [] || Ends(journal[|journal| - 1])
  }

  /** Only the last item may lack its newline. */
  ghost predicate Formed(journal: seq<Item>) {
    forall i :: 0 <= i < |journal| - 1 ==> Ends(journal[i])
  }

  /** The journal without an unterminated end. */
  function Kept(journal: seq<Item>): seq<Item> {
    if Terminated(journal) then journal else journal[..|journal| - 1]
  }

  function Wholes(lines: seq<Line>): (items: seq<Item>)
    ensures |items| == |lines| && forall k :: 0 <= k < |lines| ==> items[k] == Whole(lines[k])
  {
    seq(|lines|, k requires 0 <= k < |lines| => Whole(lines[k]))
  }

  /** Lines appended: after an unterminated end the first one joins it, and the joined text does not
      parse. */
  function Appended(journal: seq<Item>, lines: seq<Line>): seq<Item> {
    if lines == [] then journal
    else if Terminated(journal) then journal + Wholes(lines)
    else Kept(journal) + [Garbage] + Wholes(lines[1..])
  }

  /** Where a write stops inside its next line: before it, within it, or before its newline. */
  datatype Stop = Before | Within | BeforeNewline

  /** A write that stops after `k` lines. */
  function Interrupted(journal: seq<Item>, lines: seq<Line>, k: nat, stop: Stop): seq<Item>
    requires k <= |lines| && (!stop.Before? ==> k < |lines|)
  {
    var j := Appended(journal, lines[..k]);
    if stop.Before? then j
    else if !Terminated(j) then Kept(j) + [Torn]
    else if stop.Within? then j + [Torn]
    else j + [Open(lines[k])]
  }

  // ---- loading ----

  function LastIndex(entries: seq<Entry>, k: Outpoint): (i: Option<nat>)
    ensures i.Some? ==> i.value < |entries| && Key(entries[i.value]) == k
    ensures i.Some? ==> forall j :: i.value < j < |entries| ==> Key(entries[j]) != k
    ensures i.None? <==> forall j :: 0 <= j < |entries| ==> Key(entries[j]) != k
  {
    if entries == [] then None
    else if Key(entries[|entries| - 1]) == k then Some(|entries| - 1)
    else LastIndex(entries[..|entries| - 1], k)
  }

  function Upsert(entries: seq<Entry>, e: Entry): seq<Entry> {
    match LastIndex(entries, Key(e))
    case Some(i) => entries[i := e]
    case None => entries + [e]
  }

  /** A line no newer than what is loaded is stale. */
  function ApplyLine(l: Snapshot, line: Line): Snapshot {
    if line.s <= l.last then l else Snapshot(Upsert(l.entries, line.e), line.s)
  }

  function ApplyLines(l: Snapshot, lines: seq<Line>): Snapshot {
    if lines == [] then l else ApplyLine(ApplyLines(l, lines[..|lines| - 1]), lines[|lines| - 1])
  }

  /** The lines that parse, in order. */
  function Readable(items: seq<Item>): seq<Line> {
    if items == [] then []
    else
      var item := items[|items| - 1];
      Readable(items[..|items| - 1]) + if item.Whole? || item.Open? then [item.line] else []
  }

  function Replay(snap: Snapshot, items: seq<Item>): Snapshot {
    ApplyLines(snap, Readable(items))
  }

  function Load(d: Disk): Snapshot {
    Replay(d.snap, d.journal)
  }

  ghost predicate IndexesLast(entries: seq<Entry>, index: map<Outpoint, nat>) {
    forall k: Outpoint :: if k in index then LastIndex(entries, k) == Some(index[k]) else LastIndex(entries, k) == None
  }

  /** `replay_journal`: one pass with a hash index of positions. */
  method ReplayJournal(snap: Snapshot, items: seq<Item>) returns (l: Snapshot)
    ensures l == Replay(snap, items)
  {
    hide LastIndex, IndexesLast, Upsert;
    var entries, seqNo := snap.entries, snap.last;
    assert Replay(snap, items[..0]) == snap;
    var index: map<Outpoint, nat> := BuildIndex(entries);
    for n := 0 to |items|
      invariant Snapshot(entries, seqNo) == Replay(snap, items[..n])
      invariant IndexesLast(entries, index)
    {
      ReplayNext(snap, items, n);
      if items[n].Whole? || items[n].Open? {
        var line := items[n].line;
        if line.s > seqNo {
          seqNo := line.s;
          var k := Key(line.e);
          IndexUse(entries, index, line.e);
          if k in index {
            entries := entries[index[k] := line.e];
          } else {
            index := index[k := |entries|];
            entries := entries + [line.e];
          }
        }
      }
    }
    assert items[..|items|] == items;
    l := Snapshot(entries, seqNo);
  }

  lemma ReplayNext(snap: Snapshot, items: seq<Item>, n: nat)
    requires n < |items|
    ensures Replay(snap, items[..n + 1]) ==
      if items[n].Whole? || items[n].Open? then ApplyLine(Replay(snap, items[..n]), items[n].line) else Replay(snap, items[..n])
  {
    hide ApplyLine;
    assert items[..n + 1][..n] == items[..n];
    var before := Readable(items[..n]);
    assert before + [] == before;
    if items[n].Whole? || items[n].Open? { ApplySnoc(snap, before, items[n].line); }
  }

  method BuildIndex(entries: seq<Entry>) returns (index: map<Outpoint, nat>)
    ensures IndexesLast(entries, index)
  {
    hide IndexesLast;
    index := map[];
    IndexStart();
    for n := 0 to |entries|
      invariant IndexesLast(entries[..n], index)
    {
      IndexGrows(entries, n, index);
      index := index[Key(entries[n]) := n];
    }
    assert entries[..|entries|] == entries;
  }

  lemma IndexStart()
    ensures IndexesLast([], map[])
  {}

  lemma IndexGrows(entries: seq<Entry>, n: nat, index: map<Outpoint, nat>)
    requires n < |entries| && IndexesLast(entries[..n], index)
    ensures IndexesLast(entries[..n + 1], index[Key(entries[n]) := n])
  {
    assert entries[..n + 1][..n] == entries[..n];
  }

  /** The index finds the upsert position, and stays right after the upsert. */
  lemma IndexUse(entries: seq<Entry>, index: map<Outpoint, nat>, e: Entry)
    requires IndexesLast(entries, index)
    ensures Key(e) in index ==>
      && index[Key(e)] < |entries|
      && Upsert(entries, e) == entries[index[Key(e)] := e]
      && IndexesLast(entries[index[Key(e)] := e], index)
    ensures Key(e) !in index ==>
      && Upsert(entries, e) == entries + [e]
      && IndexesLast(entries + [e], index[Key(e) := |entries|])
  {
    hide LastIndex;
    if Key(e) in index {
      forall k: Outpoint
        ensures LastIndex(entries[index[Key(e)] := e], k) == LastIndex(entries, k)
      {
        SameKeysSameIndex(entries, entries[index[Key(e)] := e], k);
      }
    } else {
      forall k: Outpoint
        ensures LastIndex(entries + [e], k) == if k == Key(e) then Some(|entries|) else LastIndex(entries, k)
      {
        LastIndexSnoc(entries, e, k);
      }
    }
  }

  lemma {:induction false} SameKeysSameIndex(a: seq<Entry>, b: seq<Entry>, k: Outpoint)
    requires |a| == |b| && forall i :: 0 <= i < |a| ==> Key(a[i]) == Key(b[i])
    ensures LastIndex(a, k) == LastIndex(b, k)
  {
    hide Key;
    if a != [] { SameKeysSameIndex(a[..|a| - 1], b[..|b| - 1], k); }
  }

  lemma LastIndexSnoc(entries: seq<Entry>, e: Entry, k: Outpoint)
    ensures LastIndex(entries + [e], k) == if k == Key(e) then Some(|entries|) else LastIndex(entries, k)
  {
    assert (entries + [e])[..|entries|] == entries;
  }

  // ---- replaying ----

  lemma ApplySnoc(l: Snapshot, lines: seq<Line>, line: Line)
    ensures ApplyLines(l, lines + [line]) == ApplyLine(ApplyLines(l, lines), line)
  {
    assert (lines + [line])[..|lines|] == lines;
  }

  lemma {:induction false} ApplyConcat(l: Snapshot, a: seq<Line>, b: seq<Line>)
    ensures ApplyLines(l, a + b) == ApplyLines(ApplyLines(l, a), b)
    decreases |b|
  {
    hide ApplyLine;
    if b == [] {
      assert a + b == a;
    } else {
      var k := |b| - 1;
      ApplyConcat(l, a, b[..k]);
      assert (a + b)[..|a| + k] == a + b[..k];
    }
  }

  lemma {:induction false} ReadableConcat(a: seq<Item>, b: seq<Item>)
    ensures Readable(a + b) == Readable(a) + Readable(b)
    decreases |b|
  {
    if b == [] {
      assert a + b == a;
    } else {
      var k := |b| - 1;
      ReadableConcat(a, b[..k]);
      assert (a + b)[..|a| + k] == a + b[..k];
    }
  }

  lemma {:induction false} ReadableWholes(lines: seq<Line>)
    ensures Readable(Wholes(lines)) == lines
  {
    if lines != [] {
      var k := |lines| - 1;
      ReadableWholes(lines[..k]);
      assert Wholes(lines)[..k] == Wholes(lines[..k]);
    }
  }

  /** What is loaded is at least as new as every line on disk and as the snapshot. */
  lemma {:induction false} ApplyIsNewest(l: Snapshot, lines: seq<Line>)
    ensures ApplyLines(l, lines).last >= l.last
    ensures forall x :: x in lines ==> x.s <= ApplyLines(l, lines).last
  {
    hide Upsert;
    if lines != [] { ApplyIsNewest(l, lines[..|lines| - 1]); }
  }

  /** Lines no newer than the snapshot never undo it. */
  lemma {:induction false} StaleIgnored(l: Snapshot, lines: seq<Line>)
    requires forall x :: x in lines ==> x.s <= l.last
    ensures ApplyLines(l, lines) == l
  {
    if lines != [] { StaleIgnored(l, lines[..|lines| - 1]); }
  }

  // ---- exactly what an append loses ----

  lemma KeptReads(journal: seq<Item>)
    ensures Readable(journal) == Readable(Kept(journal)) + OpenLine(journal)
  {}

  /** The line an unterminated end still shows. */
  function OpenLine(journal: seq<Item>): seq<Line> {
    if journal != [] && journal[|journal| - 1].Open? then [journal[|journal| - 1].line] else []
  }

  /** What a restart reads after an append. */
  lemma AppendReads(journal: seq<Item>, lines: seq<Line>)
    ensures Readable(Appended(journal, lines)) ==
      if lines == [] || Terminated(journal) then Readable(journal) + lines else Readable(Kept(journal)) + lines[1..]
    ensures lines != [] ==> Terminated(Appended(journal, lines)) && Kept(Appended(journal, lines)) == Appended(journal, lines)
    ensures Formed(journal) ==> Formed(Appended(journal, lines))
  {
    hide Readable;
    if lines == [] {
      assert Readable(journal) + lines == Readable(journal);
    } else if Terminated(journal) {
      ReadableConcat(journal, Wholes(lines));
      ReadableWholes(lines);
    } else {
      ReadableConcat(Kept(journal) + [Garbage], Wholes(lines[1..]));
      ReadableWholes(lines[1..]);
      SkipUnreadable(Kept(journal), Garbage);
    }
  }

  lemma SkipUnreadable(journal: seq<Item>, item: Item)
    requires item.Torn? || item.Garbage?
    ensures Readable(journal + [item]) == Readable(journal)
  {
    assert (journal + [item])[..|journal|] == journal;
  }

  /** What a restart reads after an interrupted write. */
  lemma InterruptedReads(journal: seq<Item>, lines: seq<Line>, k: nat, stop: Stop)
    requires k <= |lines| && (!stop.Before? ==> k < |lines|)
    ensures var j, after := Appended(journal, lines[..k]), Interrupted(journal, lines, k, stop);
      && (stop.Before? ==> after == j)
      && (!stop.Before? ==> !Terminated(after) && Kept(after) == Kept(j))
      && Readable(after) == (if stop.Before? then Readable(j)
                             else Readable(Kept(j)) + if stop.BeforeNewline? && Terminated(j) then [lines[k]] else [])
      && (Formed(journal) ==> Formed(after))
  {
    hide Readable, Appended;
    AppendReads(journal, lines[..k]);
    var j, after := Appended(journal, lines[..k]), Interrupted(journal, lines, k, stop);
    if !stop.Before? {
      assert after[..|after| - 1] == Kept(j);
      KeptReads(after);
    }
  }

  /** Nothing but old lines and those of the batch is ever read back. */
  lemma InterruptedLines(journal: seq<Item>, lines: seq<Line>, k: nat, stop: Stop, x: Line)
    requires k <= |lines| && (!stop.Before? ==> k < |lines|)
    ensures x in Readable(Interrupted(journal, lines, k, stop)) ==> x in Readable(journal) || x in lines
  {
    hide Readable, Appended, Kept, Interrupted, Terminated, OpenLine;
    var w := lines[..k];
    AppendReads(journal, w);
    KeptReads(journal);
    KeptReads(Appended(journal, w));
    InterruptedReads(journal, lines, k, stop);
    var j := Appended(journal, w);
    assert lines == w + lines[k..];
    assert w != [] ==> w == [w[0]] + w[1..];
    assert k < |lines| ==> lines[k] in lines;
    assert x in Readable(Kept(j)) ==> x in Readable(Kept(j)) + OpenLine(j);
    assert x in Readable(Kept(journal)) ==> x in Readable(Kept(journal)) + OpenLine(journal);
  }

  /** The lines replay takes: each newer than all before it. */
  function Taken(l: Snapshot, lines: seq<Line>): seq<Line> {
    if lines == [] then []
    else
      var k := |lines| - 1;
      Taken(l, lines[..k]) + if lines[k].s > ApplyLines(l, lines[..k]).last then [lines[k]] else []
  }

  /** A restart knows the line: it is folded into the snapshot, or taken from the journal. */
  predicate Known(d: Disk, x: Line) {
    x.s <= d.snap.last || x in Taken(d.snap, Readable(d.journal))
  }

  ghost predicate Ascending(lines: seq<Line>) {
    forall i, j :: 0 <= i < j < |lines| ==> lines[i].s < lines[j].s
  }

  lemma {:induction false} TakenIsOld(l: Snapshot, lines: seq<Line>, x: Line)
    requires x in Taken(l, lines)
    ensures x in lines && l.last < x.s <= ApplyLines(l, lines).last
  {
    hide Upsert;
    var k := |lines| - 1;
    assert lines == lines[..k] + [lines[k]];
    ApplyIsNewest(l, lines[..k]);
    if x in Taken(l, lines[..k]) { TakenIsOld(l, lines[..k], x); }
  }

  /** Of ascending lines exactly the newer ones are taken. */
  lemma {:induction false} TakenConcat(l: Snapshot, a: seq<Line>, b: seq<Line>, x: Line)
    requires Ascending(b)
    ensures x in Taken(l, a + b) <==> x in Taken(l, a) || (x in b && x.s > ApplyLines(l, a).last)
    ensures ApplyLines(l, a + b).last == if b != [] && b[|b| - 1].s > ApplyLines(l, a).last then b[|b| - 1].s else ApplyLines(l, a).last
    decreases |b|
  {
    hide Taken, ApplyLines;
    if b == [] {
      assert a + b == a;
    } else {
      var k := |b| - 1;
      assert Ascending(b[..k]);
      TakenConcat(l, a, b[..k], x);
      TakenSnoc(l, a + b[..k], b[k]);
      assert a + b == a + b[..k] + [b[k]] && b == b[..k] + [b[k]];
    }
  }

  lemma TakenSnoc(l: Snapshot, lines: seq<Line>, y: Line)
    ensures Taken(l, lines + [y]) == Taken(l, lines) + if y.s > ApplyLines(l, lines).last then [y] else []
    ensures ApplyLines(l, lines + [y]).last == if y.s > ApplyLines(l, lines).last then y.s else ApplyLines(l, lines).last
  {
    hide Upsert;
    assert (lines + [y])[..|lines|] == lines;
  }

  /** What stands before the lines an append really adds, and which those are. */
  function Front(journal: seq<Item>, lines: seq<Line>): seq<Item> {
    if lines == [] || Terminated(journal) then journal else Kept(journal)
  }

  function Rest(journal: seq<Item>, lines: seq<Line>): seq<Line> {
    if lines == [] || Terminated(journal) then lines else lines[1..]
  }

  /** Exactly which lines a restart knows after an append: those it took from the front, and the newer
      ones of the rest. */
  lemma AppendKnows(d: Disk, lines: seq<Line>, x: Line)
    requires Ascending(lines)
    ensures Known(d.(journal := Appended(d.journal, lines)), x) <==>
      || Known(d.(journal := Front(d.journal, lines)), x)
      || (x in Rest(d.journal, lines) && x.s > Replay(d.snap, Front(d.journal, lines)).last)
  {
    hide Readable, Kept, Appended, Taken, ApplyLines;
    AppendReads(d.journal, lines);
    TakenConcat(d.snap, Readable(Front(d.journal, lines)), Rest(d.journal, lines), x);
    assert Ascending(Rest(d.journal, lines));
    if x in Rest(d.journal, lines) && x.s <= d.snap.last { ApplyIsNewest(d.snap, Readable(Front(d.journal, lines))); }
    ApplyIsNewest(d.snap, Readable(Front(d.journal, lines)));
  }

  /** An append loses nothing, of what a restart knew and of the batch. */
  ghost predicate LosesNothing(d: Disk, lines: seq<Line>) {
    forall x: Line :: Known(d, x) || x in lines ==> Known(d.(journal := Appended(d.journal, lines)), x)
  }

  /** The number has gone by without the line. */
  predicate PassedOver(d: Disk, x: Line) {
    x.s <= Load(d).last && !Known(d, x)
  }

  /** An append to a journal that ends with a newline, or is empty, loses exactly the lines whose number
      has gone by without them. */
  lemma AppendToTerminated(d: Disk, lines: seq<Line>)
    requires Ascending(lines) && Terminated(d.journal)
    ensures LosesNothing(d, lines) <==> forall x :: x in lines ==> !PassedOver(d, x)
    ensures forall x :: x in lines ==> (!Known(d.(journal := Appended(d.journal, lines)), x) <==> PassedOver(d, x))
    ensures forall x :: Known(d, x) ==> Known(d.(journal := Appended(d.journal, lines)), x)
  {
    hide Known, Load, Appended;
    forall x: Line
      ensures Known(d.(journal := Appended(d.journal, lines)), x) <==> Known(d, x) || (x in lines && x.s > Load(d).last)
    {
      AppendKnows(d, lines, x);
      assert d.(journal := d.journal) == d;
      assert Load(d) == Replay(d.snap, d.journal) by { LoadIs(d); }
    }
  }

  lemma LoadIs(d: Disk)
    ensures Load(d) == Replay(d.snap, d.journal)
  {}

  /** Exactly which of its lines a nonempty append to an unterminated journal loses: the first unless a
      restart knew it from the terminated lines, the others only when passed over; and of the lines
      known before, exactly the open one unless the rest of the batch brings it again. */
  lemma AppendToUnterminated(d: Disk, lines: seq<Line>, x: Line)
    requires Ascending(lines) && !Terminated(d.journal) && lines != []
    ensures var kept := d.(journal := Kept(d.journal));
      && (x == lines[0] ==> (!Known(d.(journal := Appended(d.journal, lines)), x) <==> !Known(kept, x)))
      && (x in lines[1..] ==> (!Known(d.(journal := Appended(d.journal, lines)), x) <==> PassedOver(kept, x)))
      && (Known(d, x) && x !in lines ==> (!Known(d.(journal := Appended(d.journal, lines)), x) <==> !Known(kept, x)))
      && (Known(d, x) && !Known(kept, x) ==> OpenLine(d.journal) == [x] && x.s > Load(kept).last)
  {
    hide Known, Load, Appended, Kept, OpenLine;
    GlueKnows(d, lines, x);
    OpenIsShort(d.journal);
    assert lines == [lines[0]] + lines[1..];
  }

  lemma OpenIsShort(journal: seq<Item>)
    ensures |OpenLine(journal)| <= 1
  {}

  lemma KnownIsOld(d: Disk, x: Line)
    requires Known(d, x)
    ensures x.s <= Load(d).last
  {
    hide Readable;
    ApplyIsNewest(d.snap, Readable(d.journal));
    if x.s > d.snap.last { TakenIsOld(d.snap, Readable(d.journal), x); }
  }

  /** What can be seen before an append: no line of the batch has been passed over, and, when the journal
      does not end with a newline, the first line is stale and a complete line without its newline is in
      the rest of the batch or no newer than the lines before it. */
  ghost predicate Fitting(d: Disk, lines: seq<Line>) {
    var front := d.(journal := Front(d.journal, lines));
    lines != [] ==>
      && (forall x :: x in lines ==> !PassedOver(front, x))
      && (!Terminated(d.journal) ==>
           && lines[0].s <= Load(front).last
           && forall x :: x in OpenLine(d.journal) ==> x in lines[1..] || x.s <= Load(front).last)
  }

  /** For every batch: an append loses nothing if and only if the batch fits. */
  lemma AppendAfterCut(d: Disk, lines: seq<Line>)
    requires Ascending(lines)
    ensures LosesNothing(d, lines) <==> Fitting(d, lines)
  {
    if lines != [] {
      FittingIsExact(d, lines);
    } else {
      assert d.(journal := Appended(d.journal, lines)) == d;
    }
  }

  lemma FittingIsExact(d: Disk, lines: seq<Line>)
    requires Ascending(lines) && lines != []
    ensures LosesNothing(d, lines) <==> Fitting(d, lines)
  {
    hide Known, Load, Appended, Kept, OpenLine;
    if Terminated(d.journal) {
      AppendToTerminated(d, lines);
      assert d.(journal := d.journal) == d;
    } else {
      forall x: Line
        ensures Known(d.(journal := Appended(d.journal, lines)), x) <==> AfterGlue(d, lines, x)
        ensures Known(d, x) <==> BeforeGlue(d, x)
        ensures Known(d.(journal := Kept(d.journal)), x) ==> x.s <= Load(d.(journal := Kept(d.journal))).last
      {
        GlueKnows(d, lines, x);
      }
      assert lines == [lines[0]] + lines[1..];
      forall x | x in lines[1..]
        ensures x != lines[0]
      {}
    }
  }

  predicate AfterGlue(d: Disk, lines: seq<Line>, x: Line)
    requires lines != []
  {
    var kept := d.(journal := Kept(d.journal));
    Known(kept, x) || (x in lines[1..] && x.s > Load(kept).last)
  }

  predicate BeforeGlue(d: Disk, x: Line) {
    var kept := d.(journal := Kept(d.journal));
    Known(kept, x) || (x in OpenLine(d.journal) && x.s > Load(kept).last)
  }

  lemma GlueKnows(d: Disk, lines: seq<Line>, x: Line)
    requires Ascending(lines) && !Terminated(d.journal) && lines != []
    ensures Known(d.(journal := Appended(d.journal, lines)), x) <==> AfterGlue(d, lines, x)
    ensures Known(d, x) <==> BeforeGlue(d, x)
    ensures Known(d.(journal := Kept(d.journal)), x) ==> x.s <= Load(d.(journal := Kept(d.journal))).last
  {
    hide Readable, Kept, Appended, Taken, ApplyLines, OpenLine;
    var kept := d.(journal := Kept(d.journal));
    AppendKnows(d, lines, x);
    KeptReads(d.journal);
    OpenIsShort(d.journal);
    TakenConcat(d.snap, Readable(Kept(d.journal)), OpenLine(d.journal), x);
    ApplyIsNewest(d.snap, Readable(Kept(d.journal)));
    if Known(kept, x) { KnownIsOld(kept, x); }
  }

  /** After a write that stopped within a line, a fresh batch loses exactly its first line. */
  lemma LineLostAfterCut(e: Entry)
    requires Live(e)
    ensures var d, line := Disk(Snapshot([e], 1), [Torn]), Line(2, e.(claimed := true));
      && Load(d) == Snapshot([e], 1)
      && Load(d.(journal := Appended(d.journal, [line]))) == Snapshot([e], 1)
  {
    var d, line := Disk(Snapshot([e], 1), [Torn]), Line(2, e.(claimed := true));
    KeptReads(d.journal);
    AppendReads(d.journal, [line]);
    assert [line][1..] == [] && d.journal[..0] == [];
  }

  /** After a write that stopped before a newline, the line just read back is lost too: an entry loaded
      as claimed is unclaimed after the next write and restart. */
  lemma BothLinesLost(e: Entry, later: Entry)
    requires Live(e) && Key(later) != Key(e)
    ensures var d, line := Disk(Snapshot([e], 1), [Open(Line(2, e.(claimed := true)))]), Line(3, later);
      && Load(d) == Snapshot([e.(claimed := true)], 2)
      && Load(d.(journal := Appended(d.journal, [line]))) == Snapshot([e], 1)
  {
    var done := Line(2, e.(claimed := true));
    var d, line := Disk(Snapshot([e], 1), [Open(done)]), Line(3, later);
    KeptReads(d.journal);
    AppendReads(d.journal, [line]);
    assert [line][1..] == [] && d.journal[..0] == [];
    assert Readable(d.journal) == [done];
    ApplySnoc(d.snap, [], done);
    assert [] + [done] == [done];
    assert LastIndex([e], Key(e)) == Some(0);
  }
}
