/** Crash recovery for every run whose writes fit what the journal ends with, and runs in which one does
    not. */
module EscrowRecovery {
  import opened EscrowEntry
  import opened EscrowBook
  import opened EscrowCrash

  // ---- which runs lose nothing ----

  /** What every write of a run finds: a batch that fits, or simply a journal that ends with a newline. */
  datatype Rule = BatchFits | EndsWithNewline

  ghost predicate Allowed(rule: Rule, s: Sys) {
    match rule
    case BatchFits => Fitting(s.disk, s.book.pending)
    case EndsWithNewline => Terminated(s.disk.journal)
  }

  predicate Writes(a: Action) {
    a.Append? || a.AppendCut?
  }

  predicate Rebases(a: Action) {
    a.SnapshotAll? || a.InstallOnly? || a.Crash?
  }

  /** A run in which every write since the last snapshot or restart follows the rule; what happened before
      does not matter. */
  ghost predicate Careful(rule: Rule, actions: seq<Action>, s: Sys) {
    if actions == [] then s == EMPTY
    else
      var k, a := |actions| - 1, actions[|actions| - 1];
      exists t :: Enabled(t, a) && s == Step(t, a)
        && if Rebases(a) then Runs(actions[..k], t)
           else Careful(rule, actions[..k], t) && (Writes(a) ==> Allowed(rule, t))
  }

  // ---- appends ----

  /** What an append makes unknown is empty if and only if it loses nothing. */
  lemma MissingIff(d: Disk, lines: seq<Line>)
    ensures Missing(d, lines, d.(journal := Appended(d.journal, lines)), []) == {} <==> LosesNothing(d, lines)
  {
    hide Appended, Taken, Readable;
    var d' := d.(journal := Appended(d.journal, lines));
    forall x: Line
      ensures x in Missing(d, lines, d', []) <==> (Known(d, x) || x in lines) && !Known(d', x)
    {}
    if !LosesNothing(d, lines) {
      var x: Line :| (Known(d, x) || x in lines) && !Known(d', x);
      assert x in Missing(d, lines, d', []);
    }
  }

  lemma PendingAscends(s: Sys)
    requires Inv(s)
    ensures Ascending(s.book.pending)
  {
    hide LosslessOk, DiskOk, Fine, Tells, LiveAt, HopefulLines, OfHistory;
  }

  /** In every state of every run: an append keeps the lost set empty if and only if it was and the
      pending batch fits. */
  lemma AppendLosesIff(s: Sys)
    requires Inv(s)
    ensures Step(s, Append).lost == {} <==> s.lost == {} && Fitting(s.disk, s.book.pending)
  {
    hide Inv, Missing, LosesNothing, Fitting, Appended;
    PendingAscends(s);
    AppendAfterCut(s.disk, s.book.pending);
    MissingIff(s.disk, s.book.pending);
  }

  // ---- writes that stop ----

  /** A write that stops reads like an append of the lines it put down, except onto an unterminated end
      that it only makes worse. */
  lemma StopsLikeAppend(journal: seq<Item>, lines: seq<Line>, k: nat, stop: Stop)
    requires k <= |lines| && (!stop.Before? ==> k < |lines|)
    ensures Readable(Interrupted(journal, lines, k, stop)) ==
      if k > 0 || stop.Before? || Terminated(journal) then Readable(Appended(journal, lines[..PutDown(k, stop)]))
      else Readable(Kept(journal))
  {
    hide Readable, Appended, Interrupted, Kept;
    InterruptedReads(journal, lines, k, stop);
    AppendReads(journal, lines[..k]);
    AppendReads(journal, lines[..PutDown(k, stop)]);
    NothingAppended(journal);
    assert lines[..0] == [];
    var j := Appended(journal, lines[..k]);
    if !stop.Before? && (k > 0 || Terminated(journal)) {
      TerminatedReads(j);
      assert Readable(j) + [] == Readable(j);
      if stop.BeforeNewline? { OneMoreLine(journal, lines, k); }
    } else if !stop.Before? {
      assert Readable(Kept(journal)) + [] == Readable(Kept(journal));
    }
  }

  lemma OneMoreLine(journal: seq<Item>, lines: seq<Line>, k: nat)
    requires k < |lines| && (k > 0 || Terminated(journal))
    ensures Readable(Appended(journal, lines[..k])) + [lines[k]] == Readable(Appended(journal, lines[..k + 1]))
  {
    hide Readable, Appended, Kept;
    AppendReads(journal, lines[..k]);
    AppendReads(journal, lines[..k + 1]);
    assert lines[..k + 1] == lines[..k] + [lines[k]];
    if k > 0 { assert lines[..k + 1][1..] == lines[..k][1..] + [lines[k]]; }
  }

  /** A disk after a write of the first `m` lines onto `d`. */
  ghost predicate AfterLines(d: Disk, lines: seq<Line>, m: nat, d': Disk) {
    && m <= |lines| && d'.snap == d.snap
    && (Readable(d'.journal) == Readable(Appended(d.journal, lines[..m]))
        || (m <= 1 && !Terminated(d.journal) && lines != [] && Readable(d'.journal) == Readable(Kept(d.journal))))
  }

  lemma SameReading(d: Disk, e: Disk, x: Line)
    requires d.snap == e.snap && Readable(d.journal) == Readable(e.journal)
    ensures Known(d, x) <==> Known(e, x)
    ensures Load(d) == Load(e)
  {}

  /** The newest number loaded is the snapshot's or a readable line's. */
  lemma {:induction false} LastBound(l: Snapshot, lines: seq<Line>, n: nat)
    requires l.last <= n && forall x :: x in lines ==> x.s <= n
    ensures ApplyLines(l, lines).last <= n
  {
    hide Upsert;
    if lines != [] { LastBound(l, lines[..|lines| - 1], n); }
  }

  lemma AscendingPrefix(lines: seq<Line>, m: nat)
    requires Ascending(lines) && m <= |lines|
    ensures Ascending(lines[..m])
    ensures forall x, y :: x in lines[..m] && y in lines && y !in lines[..m] ==> x.s < y.s
  {
    assert lines == lines[..m] + lines[m..];
  }

  /** The newest number a restart finds after such a write. */
  lemma AfterLinesLast(d: Disk, lines: seq<Line>, m: nat, d': Disk, n: nat)
    requires AfterLines(d, lines, m, d') && d.snap.last <= n
    requires forall x :: x in lines[..m] ==> x.s <= n
    requires forall x :: x in Readable(Front(d.journal, lines)) ==> x.s <= n
    requires m == 0 ==> Terminated(d.journal) || Readable(d'.journal) == Readable(Kept(d.journal))
    ensures Load(d').last <= n
  {
    hide Readable, Appended, Kept, ApplyLines;
    AppendReads(d.journal, lines[..m]);
    if m > 0 && lines[..m] != [] { assert lines[..m] == [lines[0]] + lines[..m][1..]; }
    LastBound(d.snap, Readable(d'.journal), n);
  }

  lemma ReadableBound(d: Disk, x: Line)
    ensures x in Readable(d.journal) ==> x.s <= Load(d).last
    ensures d.snap.last <= Load(d).last
  {
    ApplyIsNewest(d.snap, Readable(d.journal));
  }

  /** The line is known after the write, or a later write brings it. */
  predicate Safe(d': Disk, lines: seq<Line>, x: Line) {
    Known(d', x) || (x in lines && x.s > Load(d').last)
  }

  /** Onto a terminated journal. */
  lemma SafeOnTerminated(d: Disk, lines: seq<Line>, m: nat, d': Disk, x: Line)
    requires Ascending(lines) && Fitting(d, lines) && AfterLines(d, lines, m, d') && Terminated(d.journal)
    requires Known(d, x) || x in lines[..m]
    ensures Safe(d', lines, x)
  {
    hide Readable, Appended, Known, Load;
    var w := lines[..m];
    AscendingPrefix(lines, m);
    AppendKnows(d, w, x);
    assert d.(journal := d.journal) == d;
    LoadIs(d);
    SameReading(d', d.(journal := Appended(d.journal, w)), x);
    if x in w { assert x in lines && !PassedOver(d, x); }
  }

  /** Onto an unterminated end. */
  lemma SafeOnUnterminated(d: Disk, lines: seq<Line>, m: nat, d': Disk, x: Line)
    requires Ascending(lines) && lines != [] && Fitting(d, lines) && AfterLines(d, lines, m, d') && !Terminated(d.journal)
    requires m > 0 || Readable(d'.journal) == Readable(Kept(d.journal))
    requires Known(d, x) || x in lines[..m]
    ensures Safe(d', lines, x)
  {
    hide Readable, Appended, Kept, Known, Load, Terminated, PassedOver, OpenLine;
    var kept, w := d.(journal := Kept(d.journal)), lines[..m];
    AscendingPrefix(lines, m);
    GlueKnows(d, lines, x);
    assert lines == [lines[0]] + lines[1..];
    assert x in w ==> x in lines;
    if m > 0 {
      GlueKnows(d, w, x);
      assert w == [lines[0]] + w[1..];
    }
    WriteReads(d, lines, m, d', x);
    if x in lines && x !in w && x.s > Load(kept).last {
      KeptBound(d, lines, m, d', x);
    }
    FirstIsSafe(d, lines);
    NotPassed(kept, x);
  }

  lemma NotPassed(d: Disk, x: Line)
    ensures !PassedOver(d, x) ==> Known(d, x) || x.s > Load(d).last
  {}

  lemma FirstIsSafe(d: Disk, lines: seq<Line>)
    requires lines != [] && Fitting(d, lines) && !Terminated(d.journal)
    ensures Known(d.(journal := Kept(d.journal)), lines[0])
  {
    hide Kept, Load, Known;
    assert lines[0] in lines;
  }

  /** What is known after the write, from what the kept part shows. */
  lemma WriteReads(d: Disk, lines: seq<Line>, m: nat, d': Disk, x: Line)
    requires AfterLines(d, lines, m, d') && (m > 0 || Readable(d'.journal) == Readable(Kept(d.journal)))
    ensures var kept := d.(journal := Kept(d.journal));
      || ((Known(d', x) <==> Known(kept, x)) && Load(d') == Load(kept))
      || (m > 0 && (Known(d', x) <==> Known(d.(journal := Appended(d.journal, lines[..m])), x)))
  {
    hide Readable, Appended, Kept, Known, Load;
    if Readable(d'.journal) == Readable(Kept(d.journal)) {
      SameReading(d', d.(journal := Kept(d.journal)), x);
    } else {
      SameReading(d', d.(journal := Appended(d.journal, lines[..m])), x);
    }
  }

  lemma KeptBound(d: Disk, lines: seq<Line>, m: nat, d': Disk, x: Line)
    requires Ascending(lines) && lines != [] && AfterLines(d, lines, m, d') && !Terminated(d.journal)
    requires m > 0 || Readable(d'.journal) == Readable(Kept(d.journal))
    requires x in lines && x !in lines[..m] && x.s > Load(d.(journal := Kept(d.journal))).last
    ensures Load(d').last < x.s
  {
    hide Readable, Appended, Kept, Load;
    var kept := d.(journal := Kept(d.journal));
    AscendingPrefix(lines, m);
    forall y: Line
      ensures y in Readable(kept.journal) ==> y.s <= Load(kept).last
      ensures d.snap.last <= Load(kept).last
    {
      ReadableBound(kept, y);
    }
    AfterLinesLast(d, lines, m, d', x.s - 1);
  }

  lemma StopIsAfterLines(d: Disk, lines: seq<Line>, k: nat, stop: Stop)
    requires k <= |lines| && (!stop.Before? ==> k < |lines|)
    ensures AfterLines(d, lines, PutDown(k, stop), d.(journal := Interrupted(d.journal, lines, k, stop)))
  {
    hide Readable, Appended, Interrupted, Kept, Terminated;
    StopsLikeAppend(d.journal, lines, k, stop);
  }

  /** Wherever a write of a fitting batch stops, nothing is lost that a later write would not bring. */
  lemma StopIsSafe(d: Disk, lines: seq<Line>, k: nat, stop: Stop, x: Line)
    requires k <= |lines| && (!stop.Before? ==> k < |lines|) && Ascending(lines) && Fitting(d, lines)
    requires Known(d, x) || x in lines[..PutDown(k, stop)]
    ensures Safe(d.(journal := Interrupted(d.journal, lines, k, stop)), lines, x)
  {
    hide Readable, Appended, Interrupted, Kept, Terminated, Known, Load, Fitting;
    var d', m := d.(journal := Interrupted(d.journal, lines, k, stop)), PutDown(k, stop);
    StopIsAfterLines(d, lines, k, stop);
    if Terminated(d.journal) {
      SafeOnTerminated(d, lines, m, d', x);
    } else if k == 0 && stop.Before? {
      NothingStopped(d.journal, lines);
      assert lines[..0] == [];
      assert d' == d;
    } else {
      StopsLikeAppend(d.journal, lines, k, stop);
      SafeOnUnterminated(d, lines, m, d', x);
    }
  }

  lemma NothingStopped(journal: seq<Item>, lines: seq<Line>)
    ensures Interrupted(journal, lines, 0, Before) == journal
  {
    assert lines[..0] == [];
  }

  lemma TakenIsKnown(d: Disk, x: Line)
    requires x in LineSet(Taken(d.snap, Readable(d.journal)))
    ensures Known(d, x)
  {}

  lemma InLineSet(lines: seq<Line>, x: Line)
    ensures x in LineSet(lines) <==> x in lines
  {}

  /** So a write that stops keeps the lost set empty, if the batch fits. */
  lemma CutLosesNothing(s: Sys, k: nat, stop: Stop)
    requires Inv(s) && Enabled(s, AppendCut(k, stop)) && Fitting(s.disk, s.book.pending)
    ensures Step(s, AppendCut(k, stop)).lost == s.lost
  {
    hide Inv, Readable, Interrupted, Taken, Known, Load, Fitting, LineSet;
    PendingAscends(s);
    var d' := s.disk.(journal := Interrupted(s.disk.journal, s.book.pending, k, stop));
    var w := s.book.pending[..PutDown(k, stop)];
    forall x: Line
      ensures x !in Missing(s.disk, w, d', s.book.pending)
    {
      if x in LineSet(Taken(s.disk.snap, Readable(s.disk.journal))) {
        TakenIsKnown(s.disk, x);
        StopIsSafe(s.disk, s.book.pending, k, stop, x);
      }
      InLineSet(w, x);
      if x in w { StopIsSafe(s.disk, s.book.pending, k, stop, x); }
    }
    assert Missing(s.disk, w, d', s.book.pending) == {};
  }

  // ---- no number goes by without its line ----

  /** No pending line has been passed over. */
  ghost predicate NoneMissed(s: Sys) {
    forall x :: x in s.book.pending ==> !PassedOver(s.disk, x)
  }

  lemma LoadBelow(s: Sys)
    requires Inv(s)
    ensures Load(s.disk).last <= s.book.seqNo
  {
    hide Readable, LosslessOk, PendingOk, Fine, Tells, LiveAt, HopefulLines;
    LastBound(s.disk.snap, Readable(s.disk.journal), s.book.seqNo);
  }

  lemma LoadAfterStop(s: Sys, k: nat, stop: Stop, x: Line)
    requires Inv(s) && Enabled(s, AppendCut(k, stop)) && x in s.book.pending && x !in s.book.pending[..PutDown(k, stop)]
    ensures Load(s.disk).last < x.s ==> Load(Step(s, AppendCut(k, stop)).disk).last < x.s
  {
    hide Inv, Readable, Interrupted, Load, Missing, Appended;
    PendingAscends(s);
    var m, d' := PutDown(k, stop), s.disk.(journal := Interrupted(s.disk.journal, s.book.pending, k, stop));
    AscendingPrefix(s.book.pending, m);
    if Load(s.disk).last < x.s {
      forall y | y in Readable(d'.journal)
        ensures y.s <= x.s - 1
      {
        StopReads(s.disk.journal, s.book.pending, k, stop, y);
        ReadableBound(s.disk, y);
      }
      ReadableBound(s.disk, x);
      LoadIs(d');
      LastBound(d'.snap, Readable(d'.journal), x.s - 1);
    }
  }

  lemma StopReads(journal: seq<Item>, lines: seq<Line>, k: nat, stop: Stop, y: Line)
    requires k <= |lines| && (!stop.Before? ==> k < |lines|) && y in Readable(Interrupted(journal, lines, k, stop))
    ensures y in Readable(journal) || y in lines[..PutDown(k, stop)]
  {
    hide Readable, Interrupted, Appended, Kept, Terminated;
    var w := lines[..PutDown(k, stop)];
    StopsLikeAppend(journal, lines, k, stop);
    AppendReads(journal, w);
    KeptReads(journal);
    assert w != [] ==> w == [w[0]] + w[1..];
    assert y in Readable(Kept(journal)) ==> y in Readable(Kept(journal)) + OpenLine(journal);
  }

  lemma CutMissesNone(s: Sys, k: nat, stop: Stop)
    requires Inv(s) && NoneMissed(s) && Enabled(s, AppendCut(k, stop)) && Fitting(s.disk, s.book.pending)
    ensures NoneMissed(Step(s, AppendCut(k, stop)))
  {
    hide Inv, Interrupted, Known, Load, Fitting, Missing;
    PendingAscends(s);
    forall x | x in s.book.pending
      ensures !PassedOver(Step(s, AppendCut(k, stop)).disk, x)
    {
      if Known(s.disk, x) || x in s.book.pending[..PutDown(k, stop)] {
        StopIsSafe(s.disk, s.book.pending, k, stop, x);
      } else {
        LoadAfterStop(s, k, stop, x);
      }
    }
  }

  /** With no pending line passed over, a batch fits a journal that ends with a newline. */
  lemma CleanFits(s: Sys)
    requires NoneMissed(s) && Terminated(s.disk.journal)
    ensures Fitting(s.disk, s.book.pending)
  {
    hide Known, Load;
    assert s.disk.(journal := s.disk.journal) == s.disk;
  }

  lemma NewLineNotMissed(s: Sys, a: Action)
    requires Inv(s) && NoneMissed(s) && Enabled(s, a) && (a.Change? || a.Track?)
    ensures NoneMissed(Step(s, a))
  {
    hide Inv, Known, Load, Follows, Hopeful;
    LoadBelow(s);
  }

  lemma RebasedMissesNone(s: Sys, a: Action)
    requires Inv(s) && Rebases(a)
    ensures NoneMissed(Step(s, a)) && Step(s, a).lost == {}
  {
    hide Readable, LosslessOk, DiskOk, Fine, Tells, LiveAt, HopefulLines, Load, OfHistory, Taken;
  }

  /** Careful runs are runs, lose nothing and miss no number. */
  lemma {:induction false} CarefulIsLossless(rule: Rule, actions: seq<Action>, s: Sys)
    requires Careful(rule, actions, s)
    ensures Runs(actions, s) && s.lost == {} && NoneMissed(s)
  {
    hide Inv, NoneMissed, Step, Enabled, Allowed;
    if actions == [] {
      assert NoneMissed(EMPTY) by { NothingPending(); }
    } else {
      var k, a := |actions| - 1, actions[|actions| - 1];
      var t :| Enabled(t, a) && s == Step(t, a)
        && if Rebases(a) then Runs(actions[..k], t)
           else Careful(rule, actions[..k], t) && (Writes(a) ==> Allowed(rule, t));
      if Rebases(a) {
        RunsKeepInv(actions[..k], t);
        RebasedMissesNone(t, a);
      } else {
        CarefulIsLossless(rule, actions[..k], t);
        RunsKeepInv(actions[..k], t);
        CarefulStep(rule, t, a);
      }
    }
  }

  lemma NothingPending()
    ensures NoneMissed(EMPTY)
  {}

  lemma CarefulStep(rule: Rule, s: Sys, a: Action)
    requires Inv(s) && NoneMissed(s) && Enabled(s, a) && !Rebases(a) && s.lost == {} && (Writes(a) ==> Allowed(rule, s))
    ensures NoneMissed(Step(s, a)) && Step(s, a).lost == {}
  {
    hide Inv, Known, Load, Fitting, Missing, Interrupted, Appended, Follows, Hopeful, PassedOver, LiveOnly;
    if Writes(a) && rule.EndsWithNewline? { CleanFits(s); }
    match a
    case Change(_, _) => NewLineNotMissed(s, a);
    case Track(_) => NewLineNotMissed(s, a);
    case Compact =>
    case Append => AppendLosesIff(s);
    case AppendCut(k, stop) => CutLosesNothing(s, k, stop); CutMissesNone(s, k, stop);
  }

  // ---- crash recovery ----

  /** Crash recovery: after every run of changes, writes, failed writes, snapshots, interrupted snapshots
      and restarts in which, since the last snapshot or restart, every write found a batch that fits, or
      a journal that ends with a newline, a restart finds the memory of some moment no earlier than the
      last write that reported success: at every outpoint its live entry there, if and only if the last
      line of the outpoint up to that moment is not that of a done entry while another is live. */
  lemma CrashRecovery(rule: Rule, actions: seq<Action>, s: Sys, k: Outpoint)
    requires Careful(rule, actions, s)
    ensures s.synced <= Load(s.disk).last && 0 <= Reached(s) <= |s.since| < |s.past|
    ensures LiveAt(Load(s.disk).entries, k) == LiveAt(s.past[Reached(s)], k)
       <==> !Shadowed(s.past[Reached(s)], s.since[..Reached(s)], k)
    ensures LiveAt(Load(s.disk).entries, k).Some? ==> LiveAt(Load(s.disk).entries, k) == LiveAt(s.past[Reached(s)], k)
  {
    hide Load, LiveAt, Shadowed, Runs, Careful;
    CarefulIsLossless(rule, actions, s);
    LosslessRecovery(actions, s, k);
  }

  /** Right after a write that reported success the moment is now. */
  lemma SyncedIsNow(rule: Rule, actions: seq<Action>, s: Sys, k: Outpoint)
    requires Careful(rule, actions, s) && s.synced == s.book.seqNo
    ensures LiveAt(Load(s.disk).entries, k) == LiveAt(s.book.entries, k) <==> !Shadowed(s.book.entries, s.since, k)
  {
    hide Load, LiveAt, Shadowed, Runs, Careful;
    CarefulIsLossless(rule, actions, s);
    LosslessSynced(actions, s, k);
  }

  // ---- runs that lose lines ----

  /** One live entry in the snapshot, and its claim pending. */
  lemma ClaimPending(e: Entry) returns (s: Sys)
    requires Live(e) && Hopeful(e)
    ensures Reachable(s) && s.disk == Disk(Snapshot([e], 1), []) && s.book == Book([e.(claimed := true)], [Line(2, e.(claimed := true))], 2)
  {
    hide Reachable, Runs, Missing, Readable;
    StartReachable();
    var s1 := Next(EMPTY, Track(e));
    assert s1.book.entries == [e];
    var s2 := Next(s1, SnapshotAll);
    ClaimFollows(e);
    s := Next(s2, Change(0, e.(claimed := true)));
  }

  lemma ClaimFollows(e: Entry)
    ensures Follows(e, e.(claimed := true)) && Hopeful(e.(claimed := true))
  {}

  lemma OnlyStops(line: Line)
    ensures Interrupted([], [line], 0, Within) == [Torn] && Interrupted([], [line], 0, BeforeNewline) == [Open(line)]
  {
    assert [line][..0] == [];
  }

  /** A claim journalled, the write cut within its line, a restart, the same claim again: its write reports
      success, and the next restart finds the entry unclaimed. */
  lemma LineLostRun(e: Entry) returns (s: Sys)
    requires Live(e) && Hopeful(e)
    ensures Reachable(s) && s.synced == s.book.seqNo && s.book.entries == [e.(claimed := true)]
    ensures Load(s.disk) == Snapshot([e], 1)
  {
    hide Reachable, Runs, Missing, Readable, Load, Appended, Interrupted;
    var c := e.(claimed := true);
    var t := ClaimPending(e);
    OnlyStops(Line(2, c));
    var t1 := Next(t, AppendCut(0, Within));
    LineLostAfterCut(e);
    var t2 := Next(t1, Crash);
    ClaimFollows(e);
    var t3 := Next(t2, Change(0, c));
    assert t3.book.pending == [Line(2, c)];
    s := Next(t3, Append);
  }

  /** The same, cut before the newline: the restart finds the claim, but the next write, of another
      output, costs both; the restart after it finds the first unclaimed and the other not at all. */
  lemma BothLinesRun(e: Entry, later: Entry) returns (s: Sys)
    requires Live(e) && Hopeful(e) && Hopeful(later) && Key(later) != Key(e)
    ensures Reachable(s) && s.synced == s.book.seqNo && s.book.entries == [e.(claimed := true), later]
    ensures Load(s.disk) == Snapshot([e], 1)
  {
    hide Reachable, Runs, Missing, Readable, Load, Appended, Interrupted, Key;
    var c := e.(claimed := true);
    var t := ClaimPending(e);
    OnlyStops(Line(2, c));
    var t1 := Next(t, AppendCut(0, BeforeNewline));
    BothLinesLost(e, later);
    var t2 := Next(t1, Crash);
    assert t2.book.entries == [c];
    assert Key(c) == Key(e) by { ClaimedKey(e); }
    var t3 := Next(t2, Track(later));
    assert t3.book.entries == [c, later] && t3.book.pending == [Line(3, later)];
    s := Next(t3, Append);
  }

  lemma ClaimedKey(e: Entry)
    ensures Key(e.(claimed := true)) == Key(e)
  {}
}
