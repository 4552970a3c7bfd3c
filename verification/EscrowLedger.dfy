/** Changes to the entry vector, the life story of every entry, and the lookup indexes that have to
    follow both. */
module EscrowLedger {
  import opened EscrowEntry
  import opened EscrowBook
  import opened Wrappers

  // ---- entries with their stories ----

  /** How an entry came to be what it is. */
  datatype Story = Story(birth: Entry, causes: seq<Cause>)

  datatype Ledger = Ledger(book: Book, stories: seq<Story>)

  predicate Shaped(l: Ledger) {
    |l.stories| == |l.book.entries|
  }

  /** What happens to an entry that is looked at, if anything. */
  type Verdict = Entry -> Option<Cause>

  function UpdateOne(l: Ledger, i: nat, f: Verdict): (l': Ledger)
    requires Shaped(l) && i < |l.stories|
    ensures Shaped(l') && |l'.stories| == |l.stories|
  {
    var e := l.book.entries[i];
    match f(e)
    case None => l
    case Some(c) => Ledger(Put(l.book, i, After(e, c)), l.stories[i := Story(l.stories[i].birth, l.stories[i].causes + [c])])
  }

  /** The positions in `at`, one after another. */
  function UpdateAt(l: Ledger, at: seq<nat>, f: Verdict): (l': Ledger)
    requires Shaped(l) && forall k :: 0 <= k < |at| ==> at[k] < |l.stories|
    ensures Shaped(l') && |l'.stories| == |l.stories|
  {
    if at == [] then l else UpdateOne(UpdateAt(l, at[..|at| - 1], f), at[|at| - 1], f)
  }

  function Enter(l: Ledger, e: Entry): (l': Ledger)
    requires Shaped(l)
    ensures Shaped(l')
  {
    Ledger(Push(l.book, e), l.stories + [Story(e, [])])
  }

  /** The stories of the live entries. */
  function LiveStories(entries: seq<Entry>, stories: seq<Story>): (r: seq<Story>)
    requires |entries| == |stories|
    ensures |r| == |LiveOnly(entries)|
  {
    if entries == [] then []
    else
      var k := |entries| - 1;
      LiveStories(entries[..k], stories[..k]) + if Live(entries[k]) then [stories[k]] else []
  }

  function Compacted(l: Ledger): (l': Ledger)
    requires Shaped(l)
    ensures Shaped(l')
  {
    Ledger(l.book.(entries := LiveOnly(l.book.entries)), LiveStories(l.book.entries, l.stories))
  }

  // ---- every entry is what its story says ----

  ghost predicate EntryOk(e: Entry, s: Story) {
    && e == AfterAll(s.birth, s.causes)
    && RespectsCaps(s.birth, s.causes)
    && Hopeful(e)
  }

  ghost predicate LedgerOk(l: Ledger) {
    Shaped(l) && forall i :: 0 <= i < |l.stories| ==> EntryOk(l.book.entries[i], l.stories[i])
  }

  lemma EntryStep(e: Entry, s: Story, c: Cause)
    requires EntryOk(e, s) && CapRespected(e, c)
    ensures EntryOk(After(e, c), Story(s.birth, s.causes + [c]))
  {
    hide After, AfterAll, CapRespected, RespectsCaps;
    RespectsSnoc(s.birth, s.causes, c);
    if Live(After(e, c)) {
      LiveBefore(e, c);
      TenthSlashes(e, c);
    }
  }

  /** Every cap the updates set comes from a batch the entry could be in. */
  ghost predicate Fair(l: Ledger, at: seq<nat>, f: Verdict)
    requires Shaped(l) && forall k :: 0 <= k < |at| ==> at[k] < |l.stories|
  {
    || (forall e: Entry :: f(e).Some? ==> !SetsCap(f(e).value))
    || (Distinct(at) && forall k :: 0 <= k < |at| ==> FairTo(l.book.entries[at[k]], f))
  }

  predicate FairTo(e: Entry, f: Verdict) {
    f(e).Some? ==> CapRespected(e, f(e).value)
  }

  lemma {:induction false} UpdateKeepsLedger(l: Ledger, at: seq<nat>, f: Verdict)
    requires LedgerOk(l) && forall k :: 0 <= k < |at| ==> at[k] < |l.stories|
    requires Fair(l, at, f)
    ensures LedgerOk(UpdateAt(l, at, f))
  {
    hide EntryOk, SetsCap, After;
    if at != [] {
      var m := |at| - 1;
      assert forall k :: 0 <= k < m ==> at[..m][k] == at[k];
      UpdateKeepsLedger(l, at[..m], f);
      var mid := UpdateAt(l, at[..m], f);
      var e := mid.book.entries[at[m]];
      if Distinct(at) { UpdateElsewhere(l, at[..m], f, at[m]); }
      assert FairTo(e, f);
      if f(e).Some? { EntryStep(e, mid.stories[at[m]], f(e).value); }
    }
  }

  /** Positions not listed keep their entry. */
  lemma {:induction false} UpdateElsewhere(l: Ledger, at: seq<nat>, f: Verdict, i: nat)
    requires Shaped(l) && forall k :: 0 <= k < |at| ==> at[k] < |l.stories|
    requires i < |l.stories| && i !in at
    ensures UpdateAt(l, at, f).book.entries[i] == l.book.entries[i]
  {
    hide After;
    if at != [] { UpdateElsewhere(l, at[..|at| - 1], f, i); }
  }

  function Judged(e: Entry, f: Verdict): Entry {
    match f(e)
    case Some(c) => After(e, c)
    case None => e
  }

  /** Positions listed once, or judged by an update that does nothing the second time, hold what one
      judgement makes of them. */
  lemma {:induction false} UpdateListed(l: Ledger, at: seq<nat>, f: Verdict, i: nat)
    requires Shaped(l) && forall k :: 0 <= k < |at| ==> at[k] < |l.stories|
    requires i in at
    requires Distinct(at) || forall e: Entry :: f(e).Some? ==> f(After(e, f(e).value)).None?
    ensures UpdateAt(l, at, f).book.entries[i] == Judged(l.book.entries[i], f)
  {
    hide After;
    var m := |at| - 1;
    if i in at[..m] {
      UpdateListed(l, at[..m], f, i);
    } else {
      assert i == at[m];
      UpdateElsewhere(l, at[..m], f, i);
    }
  }

  // ---- entries only move along ----

  ghost predicate Evolved(a: seq<Entry>, b: seq<Entry>) {
    |a| == |b| && forall i :: 0 <= i < |a| ==> Follows(a[i], b[i])
  }

  lemma {:induction false} UpdateEvolves(l: Ledger, at: seq<nat>, f: Verdict)
    requires Shaped(l) && forall k :: 0 <= k < |at| ==> at[k] < |l.stories|
    ensures Evolved(l.book.entries, UpdateAt(l, at, f).book.entries)
  {
    hide Follows, After;
    if at == [] {
      forall i | 0 <= i < |l.stories|
        ensures Follows(l.book.entries[i], l.book.entries[i])
      {
        FollowsSelf(l.book.entries[i]);
      }
    } else {
      var m := |at| - 1;
      UpdateEvolves(l, at[..m], f);
      var e := UpdateAt(l, at[..m], f).book.entries[at[m]];
      if f(e).Some? {
        AfterFollows(e, f(e).value);
        FollowsTrans(l.book.entries[at[m]], e, After(e, f(e).value));
      }
    }
  }

  /** No update touches where a story began. */
  lemma {:induction false} UpdateBirths(l: Ledger, at: seq<nat>, f: Verdict, i: nat)
    requires Shaped(l) && (forall k :: 0 <= k < |at| ==> at[k] < |l.stories|) && i < |l.stories|
    ensures UpdateAt(l, at, f).stories[i].birth == l.stories[i].birth
  {
    hide After;
    if at != [] { UpdateBirths(l, at[..|at| - 1], f, i); }
  }

  // ---- updates that neither set caps nor count orphans ----

  ghost predicate Mild(f: Verdict) {
    forall e: Entry :: f(e).Some? ==> !SetsCap(f(e).value) && !IsSoloOrphan(f(e).value)
  }

  predicate Eased(e: Entry, e': Entry) {
    e'.orphanRetries == e.orphanRetries && Cap(e') >= Cap(e)
  }

  lemma MildStep(e: Entry, c: Cause)
    requires !SetsCap(c) && !IsSoloOrphan(c)
    ensures Eased(e, After(e, c))
  {
    hide HoldoffOver, SetsCap, IsSoloOrphan, Rejected;
    RetriesStep(e, c);
    if !c.Forgiveness? { CapKept(e, c); }
  }

  lemma {:induction false} MildEases(l: Ledger, at: seq<nat>, f: Verdict, i: nat)
    requires Shaped(l) && forall k :: 0 <= k < |at| ==> at[k] < |l.stories|
    requires Mild(f) && i < |l.stories|
    ensures Eased(l.book.entries[i], UpdateAt(l, at, f).book.entries[i])
  {
    hide After, SetsCap, IsSoloOrphan, Cap;
    if at != [] {
      var m := |at| - 1;
      MildEases(l, at[..m], f, i);
      var e := UpdateAt(l, at[..m], f).book.entries[at[m]];
      if f(e).Some? { MildStep(e, f(e).value); }
    }
  }

  // ---- lookup indexes ----

  ghost predicate LiveUnique(entries: seq<Entry>) {
    forall i, j :: 0 <= i < j < |entries| && Live(entries[i]) && Live(entries[j]) ==> Key(entries[i]) != Key(entries[j])
  }

  ghost predicate AllTracked(entries: seq<Entry>, tracked: set<Outpoint>) {
    forall i :: 0 <= i < |entries| && Live(entries[i]) ==> Key(entries[i]) in tracked
  }

  /** Every position listed for a block names an entry of that block. */
  ghost predicate PositionsOk(entries: seq<Entry>, bi: map<string, seq<nat>>) {
    forall h :: h in bi ==> h != "" && forall k :: 0 <= k < |bi[h]| ==> PositionOk(entries, h, bi[h][k])
  }

  predicate PositionOk(entries: seq<Entry>, h: string, i: nat) {
    i < |entries| && entries[i].blockHash == h
  }

  /** Every live entry of a block is listed. */
  ghost predicate AllListed(entries: seq<Entry>, bi: map<string, seq<nat>>) {
    forall i :: 0 <= i < |entries| && Live(entries[i]) && entries[i].blockHash != "" ==> Listed(bi, entries[i].blockHash, i)
  }

  predicate Listed(bi: map<string, seq<nat>>, h: string, i: nat) {
    h in bi && i in bi[h]
  }

  ghost predicate IndexOk(entries: seq<Entry>, tracked: set<Outpoint>, bi: map<string, seq<nat>>) {
    LiveUnique(entries) && AllTracked(entries, tracked) && PositionsOk(entries, bi) && AllListed(entries, bi)
  }

  lemma IndexFollows(a: seq<Entry>, b: seq<Entry>, tracked: set<Outpoint>, bi: map<string, seq<nat>>)
    requires IndexOk(a, tracked, bi) && Evolved(a, b)
    ensures IndexOk(b, tracked, bi)
  {
    hide Live, Key;
    forall h | h in bi
      ensures h != "" && forall k :: 0 <= k < |bi[h]| ==> PositionOk(b, h, bi[h][k])
    {
      forall k | 0 <= k < |bi[h]|
        ensures PositionOk(b, h, bi[h][k])
      {
        assert PositionOk(a, h, bi[h][k]);
        assert Follows(a[bi[h][k]], b[bi[h][k]]);
      }
    }
    forall i | 0 <= i < |b| && Live(b[i])
      ensures Live(a[i]) && Key(a[i]) == Key(b[i]) && a[i].blockHash == b[i].blockHash
    {
      assert Follows(a[i], b[i]);
    }
  }

  /** Positions listed for a block. */
  function At(bi: map<string, seq<nat>>, h: string): seq<nat> {
    if h in bi then bi[h] else []
  }

  function Listing(bi: map<string, seq<nat>>, h: string, i: nat): map<string, seq<nat>> {
    if h == "" then bi else bi[h := At(bi, h) + [i]]
  }

  /** A new live entry under an outpoint no live entry has. */
  lemma EnterKeepsIndex(a: seq<Entry>, e: Entry, tracked: set<Outpoint>, bi: map<string, seq<nat>>)
    requires IndexOk(a, tracked, bi) && Live(e) && Key(e) !in tracked
    ensures IndexOk(a + [e], tracked + {Key(e)}, Listing(bi, e.blockHash, |a|))
  {
    hide Live, Key, PositionsOk, AllListed;
    BlockIndexStep(a, e, bi);
  }

  // ---- rebuilding ----

  function Keys(entries: seq<Entry>): set<Outpoint> {
    set i | 0 <= i < |entries| :: Key(entries[i])
  }

  function BlockIndex(entries: seq<Entry>): map<string, seq<nat>> {
    if entries == [] then map[]
    else
      var k := |entries| - 1;
      Listing(BlockIndex(entries[..k]), entries[k].blockHash, k)
  }

  lemma {:induction false} BlockIndexOk(entries: seq<Entry>)
    ensures PositionsOk(entries, BlockIndex(entries)) && AllListed(entries, BlockIndex(entries))
  {
    hide Live;
    if entries != [] {
      var k := |entries| - 1;
      BlockIndexOk(entries[..k]);
      BlockIndexStep(entries[..k], entries[k], BlockIndex(entries[..k]));
      assert entries == entries[..k] + [entries[k]];
    }
  }

  lemma BlockIndexStep(a: seq<Entry>, e: Entry, bi: map<string, seq<nat>>)
    requires PositionsOk(a, bi) && AllListed(a, bi)
    ensures PositionsOk(a + [e], Listing(bi, e.blockHash, |a|)) && AllListed(a + [e], Listing(bi, e.blockHash, |a|))
  {
    hide Live;
    var b, bi' := a + [e], Listing(bi, e.blockHash, |a|);
    forall h | h in bi'
      ensures h != "" && forall k :: 0 <= k < |bi'[h]| ==> PositionOk(b, h, bi'[h][k])
    {
      forall k | 0 <= k < |bi'[h]|
        ensures PositionOk(b, h, bi'[h][k])
      {
        if k < |At(bi, h)| { assert PositionOk(a, h, At(bi, h)[k]); }
      }
    }
    forall i | 0 <= i < |b| && Live(b[i]) && b[i].blockHash != ""
      ensures Listed(bi', b[i].blockHash, i)
    {
      var h := b[i].blockHash;
      if i < |a| {
        assert Listed(bi, h, i);
      } else {
        assert bi'[h][|At(bi, h)|] == i;
      }
    }
  }

  /** Indexes rebuilt from the entries are right. */
  lemma RebuiltIndexOk(entries: seq<Entry>)
    requires LiveUnique(entries)
    ensures IndexOk(entries, Keys(entries), BlockIndex(entries))
  {
    hide BlockIndex, PositionsOk, AllListed, LiveUnique;
    BlockIndexOk(entries);
  }

  // ---- slashing by block ----

  /** Slash a live entry; the red-set path spares inference entries. */
  function SlashIf(spareInference: bool): Verdict {
    (e: Entry) => if Live(e) && !(spareInference && e.isInference) then Some(Exclusion) else None
  }

  /** Slashing a block by scanning every entry. */
  function ScanSlash(entries: seq<Entry>, h: string, spare: bool): (r: seq<Entry>)
    ensures |r| == |entries|
  {
    seq(|entries|, i requires 0 <= i < |entries| =>
      if entries[i].blockHash == h then Judged(entries[i], SlashIf(spare)) else entries[i])
  }

  /** The block index slashes exactly what a scan of all entries would. */
  lemma SlashByIndexIsScan(l: Ledger, tracked: set<Outpoint>, bi: map<string, seq<nat>>, h: string, spare: bool)
    requires Shaped(l) && IndexOk(l.book.entries, tracked, bi) && h != ""
    ensures forall k :: 0 <= k < |At(bi, h)| ==> At(bi, h)[k] < |l.stories|
    ensures UpdateAt(l, At(bi, h), SlashIf(spare)).book.entries == ScanSlash(l.book.entries, h, spare)
  {
    hide UpdateAt, Judged, SlashIf;
    var a, at := l.book.entries, At(bi, h);
    PositionsInRange(a, bi, h);
    var r, s := UpdateAt(l, at, SlashIf(spare)).book.entries, ScanSlash(a, h, spare);
    forall i | 0 <= i < |a|
      ensures r[i] == s[i]
    {
      SlashOnce(spare);
      if i in at {
        var k :| 0 <= k < |at| && at[k] == i;
        assert PositionOk(a, h, at[k]);
        UpdateListed(l, at, SlashIf(spare), i);
      } else {
        UpdateElsewhere(l, at, SlashIf(spare), i);
        UnlistedSpared(a, bi, h, spare, i);
      }
    }
  }

  lemma PositionsInRange(a: seq<Entry>, bi: map<string, seq<nat>>, h: string)
    requires PositionsOk(a, bi)
    ensures forall k :: 0 <= k < |At(bi, h)| ==> PositionOk(a, h, At(bi, h)[k]) && At(bi, h)[k] < |a|
  {}

  lemma SlashOnce(spare: bool)
    ensures forall e: Entry :: SlashIf(spare)(e).Some? ==> SlashIf(spare)(After(e, SlashIf(spare)(e).value)).None?
    ensures Mild(SlashIf(spare))
  {}

  /** An entry the index does not list for its block is not live. */
  lemma UnlistedSpared(a: seq<Entry>, bi: map<string, seq<nat>>, h: string, spare: bool, i: nat)
    requires AllListed(a, bi) && h != "" && i < |a| && i !in At(bi, h)
    ensures a[i].blockHash == h ==> Judged(a[i], SlashIf(spare)) == a[i]
  {
    assert Live(a[i]) && a[i].blockHash == h ==> Listed(bi, h, i);
  }

  // ---- finding an outpoint ----

  /** First match. */
  function FirstIndex(entries: seq<Entry>, k: Outpoint): (i: Option<nat>)
    ensures i.Some? ==> i.value < |entries| && Key(entries[i.value]) == k && forall j :: 0 <= j < i.value ==> Key(entries[j]) != k
    ensures i.None? ==> forall j :: 0 <= j < |entries| ==> Key(entries[j]) != k
  {
    FirstFrom(entries, k, 0)
  }

  function FirstFrom(entries: seq<Entry>, k: Outpoint, from: nat): (i: Option<nat>)
    requires from <= |entries| && forall j :: 0 <= j < from ==> Key(entries[j]) != k
    ensures i.Some? ==> i.value < |entries| && Key(entries[i.value]) == k && forall j :: 0 <= j < i.value ==> Key(entries[j]) != k
    ensures i.None? ==> forall j :: 0 <= j < |entries| ==> Key(entries[j]) != k
    decreases |entries| - from
  {
    if from == |entries| then None
    else if Key(entries[from]) == k then Some(from)
    else FirstFrom(entries, k, from + 1)
  }

  /** The positions a response for these outpoints reaches. */
  function Hits(entries: seq<Entry>, ops: seq<Outpoint>): (at: seq<nat>)
    ensures forall k :: 0 <= k < |at| ==> at[k] < |entries| && Key(entries[at[k]]) in ops
  {
    if ops == [] then []
    else
      var k := |ops| - 1;
      assert ops == ops[..k] + [ops[k]];
      Hits(entries, ops[..k]) + match FirstIndex(entries, ops[k]) { case Some(i) => [i] case None => [] }
  }

  lemma {:induction false} HitsDistinct(entries: seq<Entry>, ops: seq<Outpoint>)
    requires Distinct(ops)
    ensures Distinct(Hits(entries, ops)) && |Hits(entries, ops)| <= |ops|
  {
    hide Key;
    if ops != [] {
      var k := |ops| - 1;
      HitsDistinct(entries, ops[..k]);
      var h := Hits(entries, ops[..k]);
      forall i | 0 <= i < |h|
        ensures Key(entries[h[i]]) != ops[k]
      {}
    }
  }

  /** A response reaches the entry at `i` if and only if no earlier entry has its outpoint. */
  lemma {:induction false} HitsExactly(entries: seq<Entry>, ops: seq<Outpoint>, i: nat)
    requires i < |entries|
    ensures i in Hits(entries, ops) <==>
      Key(entries[i]) in ops && forall j :: 0 <= j < i ==> Key(entries[j]) != Key(entries[i])
  {
    hide Key;
    if ops != [] {
      var k := |ops| - 1;
      HitsExactly(entries, ops[..k], i);
      assert ops == ops[..k] + [ops[k]];
      assert Hits(entries, ops) == Hits(entries, ops[..k]) + match FirstIndex(entries, ops[k]) { case Some(i) => [i] case None => [] };
      if FirstIndex(entries, ops[k]) == Some(i) {
        assert Hits(entries, ops)[|Hits(entries, ops[..k])|] == i;
      }
    }
  }

  /** Updates move no entry to another outpoint. */
  lemma SameFirst(a: seq<Entry>, b: seq<Entry>, k: Outpoint)
    requires Evolved(a, b)
    ensures FirstIndex(a, k) == FirstIndex(b, k)
  {
    hide Key, FirstFrom;
    var i, j := FirstIndex(a, k), FirstIndex(b, k);
    if i.Some? { assert Follows(a[i.value], b[i.value]); }
    if j.Some? { assert Follows(a[j.value], b[j.value]); }
  }

  // ---- conservation ----

  function ClaimedTotal(entries: seq<Entry>): nat {
    if entries == [] then 0
    else ClaimedTotal(entries[..|entries| - 1]) + if entries[|entries| - 1].claimed then entries[|entries| - 1].amount else 0
  }

  lemma {:induction false} ClaimOneAdds(entries: seq<Entry>, i: nat)
    requires i < |entries|
    ensures ClaimedTotal(entries[i := entries[i].(claimed := true)])
         == ClaimedTotal(entries) + if entries[i].claimed then 0 else entries[i].amount
  {
    var k := |entries| - 1;
    var r := entries[i := entries[i].(claimed := true)];
    if i < k {
      ClaimOneAdds(entries[..k], i);
      assert r[..k] == entries[..k][i := entries[i].(claimed := true)];
    } else {
      assert r[..k] == entries[..k];
    }
  }
}
