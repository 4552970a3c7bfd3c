/** Every event keeps the watcher's invariant, and what follows for whole runs. */
module EscrowRuns {
  import opened EscrowEntry
  import opened EscrowBook
  import opened EscrowLedger
  import opened EscrowMachine
  import opened Wrappers
  import CB = ClaimBatch

  // ---- releasing and submitting ----

  lemma FewerClaims(v: View, fl: InFlight, busy: set<Outpoint>)
    requires Sound(v) && InFlightOk(fl, busy) && busy <= v.busy
    requires forall t :: t in fl ==> t in v.inFlight && fl[t] == v.inFlight[t]
    ensures Sound(v.(inFlight := fl, busy := busy))
  {
    hide LedgerOk, InFlightOk, IndexOk, FitsIn, DistinctKeys;
    forall i | 0 <= i < |Entries(v)|
      ensures forall birth: Entry :: CountOk(Entries(v)[i], birth, v.busy) ==> CountOk(Entries(v)[i], birth, busy)
    {}
  }

  lemma ExpireKeeps(v: View, daa: nat)
    requires Sound(v)
    ensures Sound(ExpireClaims(v, daa))
  {
    hide LedgerOk, InFlightOk, IndexOk, Fits, Counters, Held;
    WaitingKeeps(v.inFlight, v.busy, daa);
    FewerClaims(v, Waiting(v.inFlight, daa), Held(Waiting(v.inFlight, daa)));
  }

  lemma ReleaseViewKeeps(v: View, t: TxId)
    requires Sound(v) && t in v.inFlight
    ensures Sound(Release(v, t))
  {
    hide LedgerOk, InFlightOk, IndexOk, Fits, Counters, Held;
    ReleaseKeeps(v.inFlight, v.busy, t);
    FewerClaims(v, v.inFlight - {t}, v.busy - OpSet(v.inFlight[t].outpoints));
  }

  // ---- responses ----

  lemma RespondKeeps(v: View, t: TxId, error: Option<Message>)
    requires Sound(v)
    ensures Sound(Respond(v, t, error))
  {
    hide LedgerOk, InFlightOk, IndexOk, Fits, Counters, UpdateAt, Hits, Reject, Accept;
    LedgerShaped(v.l);
    if t in v.inFlight {
      ReleaseViewKeeps(v, t);
      var ops := v.inFlight[t].outpoints;
      if MeansAccepted(error) {
        AcceptMild();
        MildKeeps(Release(v, t), Hits(Entries(v), ops), Accept());
      } else {
        RejectKeeps(v, t, error.value);
      }
    }
  }

  lemma AcceptMild()
    ensures Mild(Accept())
  {}

  lemma HealMild(daa: nat)
    ensures Mild(Heal(daa))
  {}

  lemma RejectKeeps(v: View, t: TxId, m: Message)
    requires Sound(v) && t in v.inFlight
    ensures Sound(Update(Release(v, t), Hits(Entries(v), v.inFlight[t].outpoints), Reject(m, |v.inFlight[t].outpoints|, v.daa)))
  {
    hide LedgerOk, IndexOk, Fits, Counters, UpdateAt, Hits, Reject, Held, Disjoint;
    LedgerShaped(v.l);
    ReleaseViewKeeps(v, t);
    ReleaseKeeps(v.inFlight, v.busy, t);
    var c := v.inFlight[t];
    var w, at, f := Release(v, t), Hits(Entries(v), c.outpoints), Reject(m, |c.outpoints|, v.daa);
    assert ClaimOk(t, c);
    HitsDistinct(Entries(v), c.outpoints);
    RejectFair(v, t, m);
    UpdateKeepsLedger(v.l, at, f);
    UpdateEvolves(v.l, at, f);
    var b := UpdateAt(v.l, at, f).book.entries;
    IndexFollows(Entries(v), b, v.tracked, v.blocks);
    RejectFits(w, c.outpoints, f);
    RejectCounts(v, t, m);
  }

  /** The rejected batch was within the cap of every live member. */
  lemma RejectFair(v: View, t: TxId, m: Message)
    requires Sound(v) && t in v.inFlight
    ensures Shaped(v.l)
    ensures var c := v.inFlight[t]; Fair(v.l, Hits(Entries(v), c.outpoints), Reject(m, |c.outpoints|, v.daa))
  {
    hide EntryOk, Held, IndexOk, Counters, Hits, Cap, SetsCap, Live, Key;
    var c := v.inFlight[t];
    assert ClaimOk(t, c);
    HitsDistinct(Entries(v), c.outpoints);
    var at, f := Hits(Entries(v), c.outpoints), Reject(m, |c.outpoints|, v.daa);
    forall k | 0 <= k < |at|
      ensures FairTo(Entries(v)[at[k]], f)
    {
      assert FitsIn(Entries(v)[at[k]], c);
    }
  }

  /** Entries whose outpoints are not held may change their caps freely. */
  lemma RejectFits(w: View, ops: seq<Outpoint>, f: Verdict)
    requires Shaped(w.l) && Fits(Entries(w), w.inFlight) && forall o :: o in ops ==> o !in Held(w.inFlight)
    ensures Fits(UpdateAt(w.l, Hits(Entries(w), ops), f).book.entries, w.inFlight)
  {
    hide UpdateAt, Hits, Cap, Live, Key;
    var at := Hits(Entries(w), ops);
    var a, b := Entries(w), UpdateAt(w.l, at, f).book.entries;
    UpdateEvolves(w.l, at, f);
    forall t, i | t in w.inFlight && 0 <= i < |b|
      ensures FitsIn(b[i], w.inFlight[t])
    {
      assert FitsIn(a[i], w.inFlight[t]) && Follows(a[i], b[i]);
      assert forall o :: o in w.inFlight[t].outpoints ==> o in Held(w.inFlight);
      if i in at {
        var k :| 0 <= k < |at| && at[k] == i;
        assert Key(a[at[k]]) in ops;
      } else {
        UpdateElsewhere(w.l, at, f, i);
      }
    }
  }

  lemma RejectCounts(v: View, t: TxId, m: Message)
    requires Sound(v) && t in v.inFlight
    ensures Shaped(v.l)
    ensures var c := v.inFlight[t];
      Counters(UpdateAt(v.l, Hits(Entries(v), c.outpoints), Reject(m, |c.outpoints|, v.daa)), Release(v, t).busy)
  {
    hide UpdateAt, Hits, Held, EntryOk, IndexOk, Fits, Key, Follows, InFlightOk, After, OpSet;
    var c := v.inFlight[t];
    ReleaseKeeps(v.inFlight, v.busy, t);
    ClaimIsOk(v.inFlight, v.busy, t);
    HitsDistinct(Entries(v), c.outpoints);
    var at, f := Hits(Entries(v), c.outpoints), Reject(m, |c.outpoints|, v.daa);
    var l := UpdateAt(v.l, at, f);
    var a, b := Entries(v), l.book.entries;
    UpdateEvolves(v.l, at, f);
    DistinctBack(a, b);
    if DistinctKeys(b) {
      forall i | 0 <= i < |b|
        ensures CountOk(b[i], l.stories[i].birth, Release(v, t).busy)
      {
        UpdateBirths(v.l, at, f, i);
        assert CountOk(a[i], v.l.stories[i].birth, v.busy);
        if i in at {
          var k :| 0 <= k < |at| && at[k] == i;
          assert Key(a[at[k]]) in c.outpoints;
          UpdateListed(v.l, at, f, i);
          RetriesStep(a[i], Rejection(m, |c.outpoints|, v.daa));
          assert Key(a[i]) in OpSet(c.outpoints) by { InOpSet(c.outpoints, Key(a[i])); }
        } else {
          UpdateElsewhere(v.l, at, f, i);
        }
      }
    }
  }

  lemma InOpSet(ops: seq<Outpoint>, o: Outpoint)
    ensures o in ops <==> o in OpSet(ops)
  {}

  lemma ClaimIsOk(fl: InFlight, busy: set<Outpoint>, t: TxId)
    requires InFlightOk(fl, busy) && t in fl
    ensures ClaimOk(t, fl[t])
  {}

  // ---- compaction ----

  lemma {:induction false} LiveLedgerOk(entries: seq<Entry>, stories: seq<Story>)
    requires |entries| == |stories| && forall i :: 0 <= i < |stories| ==> EntryOk(entries[i], stories[i])
    ensures forall i :: 0 <= i < |LiveOnly(entries)| ==> EntryOk(LiveOnly(entries)[i], LiveStories(entries, stories)[i])
  {
    hide EntryOk, Live;
    if entries != [] {
      LiveLedgerOk(entries[..|entries| - 1], stories[..|entries| - 1]);
    }
  }

  lemma {:induction false} LiveOnlyUnique(entries: seq<Entry>)
    requires LiveUnique(entries)
    ensures DistinctKeys(LiveOnly(entries))
  {
    hide Live, Key;
    if entries != [] {
      var k := |entries| - 1;
      LiveOnlyUnique(entries[..k]);
      var r := LiveOnly(entries[..k]);
      if Live(entries[k]) {
        forall i | 0 <= i < |r|
          ensures Key(r[i]) != Key(entries[k])
        {
          var j :| 0 <= j < k && entries[..k][j] == r[i];
        }
      }
    }
  }

  lemma CompactKeeps(v: View)
    requires Sound(v)
    ensures Sound(CompactNow(v))
  {
    hide EntryOk, InFlightOk, LiveOnly, LiveStories, BlockIndex, Keys, PositionsOk, AllListed, AllTracked, Key, Cap;
    var r := LiveOnly(Entries(v));
    LiveLedgerOk(Entries(v), v.l.stories);
    LiveOnlyUnique(Entries(v));
    RebuiltIndexOk(r);
    forall i | 0 <= i < |r|
      ensures forall birth: Entry :: CountOk(r[i], birth, v.busy)
      ensures forall t :: t in v.inFlight ==> FitsIn(r[i], v.inFlight[t])
    {
      var j :| 0 <= j < |Entries(v)| && Entries(v)[j] == r[i];
      LiveBelowTen(Entries(v)[j], v.l.stories[j]);
    }
  }

  lemma LiveBelowTen(e: Entry, s: Story)
    requires EntryOk(e, s) && Live(e)
    ensures e.orphanRetries < MAX_ORPHAN_RETRIES
  {}

  lemma TickKeeps(v: View)
    requires Sound(v)
    ensures Sound(Tick(v))
  {
    hide CompactNow, InFlightOk, IndexOk, Fits, Counters, EntryOk;
    if v.sinceCompact + 1 >= COMPACT_EVERY { CompactKeeps(v.(sinceCompact := 0)); }
  }

  // ---- slashing and tracking ----

  lemma SoundPlaced(v: View)
    requires Sound(v)
    ensures Placed(v)
  {}

  lemma SlashBlockKeeps(v: View, h: string, spare: bool)
    requires Sound(v)
    ensures Placed(v) && Sound(SlashBlock(v, h, spare))
  {
    hide Sound, SlashIf, UpdateAt, PositionsOk;
    SoundPlaced(v);
    PlacedAt(v, h);
    SlashOnce(spare);
    MildKeeps(v, At(v.blocks, h), SlashIf(spare));
  }

  lemma {:induction false} SlashRedsKeeps(v: View, reds: seq<string>)
    requires Sound(v)
    ensures Placed(v) && Sound(SlashReds(v, reds))
  {
    hide Sound, Placed, SlashBlock;
    SoundPlaced(v);
    if reds != [] {
      SlashRedsKeeps(v, reds[..|reds| - 1]);
      SlashBlockKeeps(SlashReds(v, reds[..|reds| - 1]), reds[|reds| - 1], true);
    }
  }

  /** A new entry has a clean record. */
  predicate IsFresh(e: Entry) {
    Live(e) && e.orphanRetries == 0 && e.batchCap == 0
  }

  lemma TrackEntryKeeps(v: View, e: Entry)
    requires Sound(v) && IsFresh(e)
    ensures Sound(TrackEntry(v, e))
  {
    hide EntryOk, IndexOk, Held, Disjoint, Key;
    if Key(e) !in v.tracked {
      EnterKeepsIndex(Entries(v), e, v.tracked, v.blocks);
      BirthOk(e);
      forall t | t in v.inFlight
        ensures FitsIn(e, v.inFlight[t])
      {
        assert ClaimOk(t, v.inFlight[t]);
      }
      EnterDistinct(Entries(v), e);
    }
  }

  lemma EnterDistinct(a: seq<Entry>, e: Entry)
    ensures DistinctKeys(a + [e]) ==> DistinctKeys(a)
  {
    assert forall i :: 0 <= i < |a| ==> (a + [e])[i] == a[i];
  }

  lemma BirthOk(e: Entry)
    requires IsFresh(e)
    ensures EntryOk(e, Story(e, []))
  {}

  lemma {:induction false} TrackOutputsKeeps(cfg: Config, v: View, txid: string, hash: string, daa: nat, outs: seq<Output>)
    requires Sound(v)
    ensures Shaped(v.l) && Sound(TrackOutputs(cfg, v, txid, hash, daa, outs))
  {
    hide LedgerOk, InFlightOk, IndexOk, Fits, Counters, TrackEntry, WindowPaid;
    LedgerShaped(v.l);
    if outs != [] {
      var k := |outs| - 1;
      TrackOutputsKeeps(cfg, v, txid, hash, daa, outs[..k]);
      var w := TrackOutputs(cfg, v, txid, hash, daa, outs[..k]);
      match WindowPaid(cfg, outs[k])
      case None =>
      case Some(window) => TrackEntryKeeps(w, Fresh(txid, hash, daa, outs[k].amount, k, false, window));
    }
  }

  lemma TrackBlockKeeps(cfg: Config, v: View, block: Block, daa: nat)
    requires Sound(v)
    ensures Shaped(v.l) && Sound(TrackBlock(cfg, v, block, daa))
  {
    hide Sound, Coinbase, TrackOutputs;
    SoundPlaced(v);
    var cb := Coinbase(block.txs);
    if block.verbose.Some? && cb.Some? && cb.value.txid.Some? {
      TrackOutputsKeeps(cfg, v, cb.value.txid.value, block.verbose.value.hash, daa, cb.value.outputs);
    }
  }

  // ---- claiming ----

  lemma HealKeeps(v: View, daa: nat)
    requires Sound(v)
    ensures Shaped(v.l) && Sound(HealAll(v, daa))
  {
    hide Sound, UpdateAt, Heal;
    SoundPlaced(v);
    HealMild(daa);
    MildKeeps(v, CB.Upto(|Entries(v)|), Heal(daa));
  }

  /** A selected batch is one window and live, free, distinct outpoints. */
  lemma SelectedClaim(cfg: Config, v: View, daa: nat)
    requires Sound(v)
    ensures var batch := CB.Select(Context(cfg, v, daa));
      && |batch| <= MAX_CLAIM_BATCH
      && (forall k :: 0 <= k < |batch| ==> batch[k] < |Entries(v)|)
      && Distinct(Outpoints(Pick(Entries(v), batch)))
      && (forall k :: 0 <= k < |batch| ==> Member(v, |batch|, Entries(v)[batch[k]]))
      && (forall k :: 0 <= k < |batch| ==> Entries(v)[batch[k]].csvWindow == Entries(v)[batch[0]].csvWindow)
  {
    hide CB.Select, Cap, EntryOk, InFlightOk, Fits, Counters, AllTracked, PositionsOk, AllListed, Distinct;
    var c := Context(cfg, v, daa);
    var batch := CB.Select(c);
    CB.SelectMembers(c);
    forall k | 0 <= k < |batch|
      ensures Member(v, |batch|, Entries(v)[batch[k]])
    {
      EligibleMember(c, Entries(v)[batch[k]]);
    }
    DifferentKeys(Entries(v), batch);
  }

  predicate Member(v: View, n: nat, e: Entry) {
    Live(e) && Key(e) !in v.busy && n <= Cap(e)
  }

  lemma EligibleMember(c: CB.Ctx, e: Entry)
    requires CB.Eligible(c, e)
    ensures Live(e) && Key(e) !in c.inFlight
  {}

  lemma DifferentKeys(entries: seq<Entry>, batch: seq<nat>)
    requires Distinct(batch) && LiveUnique(entries)
    requires forall k :: 0 <= k < |batch| ==> batch[k] < |entries| && Live(entries[batch[k]])
    ensures Distinct(Outpoints(Pick(entries, batch)))
  {
    hide Live, Key;
    var ops := Outpoints(Pick(entries, batch));
    forall i, j | 0 <= i < j < |ops|
      ensures ops[i] != ops[j]
    {
      assert batch[i] != batch[j];
    }
  }

  lemma SubmitViewKeeps(v: View, batch: seq<nat>, daa: nat)
    requires Sound(v) && |v.inFlight| < MAX_IN_FLIGHT && 0 < |batch| <= MAX_CLAIM_BATCH
    requires forall k :: 0 <= k < |batch| ==> batch[k] < |Entries(v)| && Member(v, |batch|, Entries(v)[batch[k]])
    requires Distinct(Outpoints(Pick(Entries(v), batch)))
    ensures Sound(Submit(v, Outpoints(Pick(Entries(v), batch)), daa))
  {
    hide EntryOk, InFlightOk, IndexOk, Key, Cap, Live, OpSet, Distinct;
    var a, ops := Entries(v), Outpoints(Pick(Entries(v), batch));
    SubmitKeeps(v.inFlight, v.busy, ops, daa);
    var fl := v.inFlight[TxId(ops) := Claim(ops, daa)];
    forall i | 0 <= i < |a|
      ensures FitsIn(a[i], Claim(ops, daa))
      ensures DistinctKeys(a) ==> CountOk(a[i], v.l.stories[i].birth, v.busy + OpSet(ops))
    {
      assert DistinctKeys(a) ==> CountOk(a[i], v.l.stories[i].birth, v.busy);
      InOpSet(ops, Key(a[i]));
      if Key(a[i]) in ops {
        var k :| 0 <= k < |ops| && ops[k] == Key(a[i]);
        assert Member(v, |batch|, a[batch[k]]);
        if Live(a[i]) { SameWhenLive(v, i, batch[k]); }
        if DistinctKeys(a) { SameWhenDistinct(a, i, batch[k]); LiveBelowTen(a[i], v.l.stories[i]); }
      }
    }
  }

  lemma SameWhenLive(v: View, i: nat, j: nat)
    requires Sound(v) && i < |Entries(v)| && j < |Entries(v)|
    requires Live(Entries(v)[i]) && Live(Entries(v)[j]) && Key(Entries(v)[i]) == Key(Entries(v)[j])
    ensures i == j
  {}

  lemma SameWhenDistinct(a: seq<Entry>, i: nat, j: nat)
    requires DistinctKeys(a) && i < |a| && j < |a| && Key(a[i]) == Key(a[j])
    ensures i == j
  {}

  lemma FindClaimKeeps(cfg: Config, v: View, daa: nat)
    requires Sound(v)
    ensures Shaped(v.l) && Sound(FindClaim(cfg, v, daa).v)
  {
    hide Sound, HealAll, CB.Select, OpSet, Distinct, Member;
    SoundPlaced(v);
    if |v.inFlight| < MAX_IN_FLIGHT && v.validating == {} {
      HealKeeps(v, daa);
      var w := HealAll(v, daa);
      assert w.inFlight == v.inFlight by { HealOnlyEntries(v, daa); }
      SelectedClaim(cfg, w, daa);
      var batch := CB.Select(Context(cfg, w, daa));
      if BuildClaim(Pick(Entries(w), batch)).Built? {
        SubmitViewKeeps(w, batch, daa);
      }
    }
  }

  lemma HealOnlyEntries(v: View, daa: nat)
    requires Shaped(v.l)
    ensures HealAll(v, daa) == v.(l := HealAll(v, daa).l)
  {}

  lemma SeeBlockKeeps(cfg: Config, v: View, block: Block)
    requires Sound(v)
    ensures Placed(v) && Sound(SeeBlock(cfg, v, block).v)
  {
    hide LedgerOk, InFlightOk, IndexOk, Fits, Counters, ExpireClaims, Tick, SlashReds, TrackBlock, FindClaim, PositionsOk;
    SoundPlaced(v);
    if block.daa.Some? {
      var daa := block.daa.value;
      ExpireKeeps(v.(daa := daa), daa);
      var v1 := ExpireClaims(v.(daa := daa), daa);
      SoundPlaced(v1);
      TickKeeps(v1);
      SlashRedsKeeps(Tick(v1), if block.verbose.Some? then block.verbose.value.reds else []);
      var v3 := SlashReds(Tick(v1), if block.verbose.Some? then block.verbose.value.reds else []);
      TrackBlockKeeps(cfg, v3, block, daa);
      FindClaimKeeps(cfg, TrackBlock(cfg, v3, block, daa), daa);
    }
  }

  // ---- reorganisations ----

  lemma RemoveBlockKeeps(v: View, h: string)
    requires Sound(v)
    ensures Placed(v) && Sound(RemoveBlock(v, h))
  {
    hide LedgerOk, InFlightOk, Fits, Counters, UpdateAt, LiveUnique, AllListed, AllTracked, SlashIf, LiveKeys, Placed;
    SoundPlaced(v);
    PlacedAt(v, h);
    SlashBlockKeeps(v, h, false);
    RemovedIndex(v, h);
  }

  /** After the slashing no live entry is listed under the block, and no live entry loses its mark. */
  lemma RemovedIndex(v: View, h: string)
    requires Sound(v)
    ensures Placed(v) && IndexOk(Entries(RemoveBlock(v, h)), RemoveBlock(v, h).tracked, v.blocks - {h})
  {
    hide LedgerOk, InFlightOk, Fits, Counters, UpdateAt, SlashIf, LiveUnique, Follows, PositionsOk;
    SoundPlaced(v);
    PlacedAt(v, h);
    SlashBlockKeeps(v, h, false);
    var a, at := Entries(v), At(v.blocks, h);
    var b := UpdateAt(v.l, at, SlashIf(false)).book.entries;
    UpdateEvolves(v.l, at, SlashIf(false));
    FewerPositions(b, v.blocks, h);
    forall i | 0 <= i < |b| && Live(b[i])
      ensures Key(b[i]) in v.tracked - LiveKeys(a, at)
      ensures b[i].blockHash != "" ==> Listed(v.blocks - {h}, b[i].blockHash, i)
    {
      SurvivorElsewhere(v, h, i);
    }
  }

  lemma FewerPositions(b: seq<Entry>, bi: map<string, seq<nat>>, h: string)
    requires PositionsOk(b, bi)
    ensures PositionsOk(b, bi - {h})
  {}

  /** An entry still live after its block was slashed is of another block. */
  lemma SurvivorElsewhere(v: View, h: string, i: nat)
    requires Sound(v) && i < |Entries(v)|
    ensures Placed(v) && Shaped(SlashBlock(v, h, false).l) && |Entries(SlashBlock(v, h, false))| == |Entries(v)|
    ensures var b := Entries(SlashBlock(v, h, false));
      Live(b[i]) ==>
        && Key(b[i]) in v.tracked && Key(b[i]) !in LiveKeys(Entries(v), At(v.blocks, h))
        && (b[i].blockHash != "" ==> b[i].blockHash != h && Listed(v.blocks, b[i].blockHash, i))
  {
    hide LedgerOk, InFlightOk, Fits, Counters, UpdateAt, SlashIf, PositionsOk, Live, Key;
    SoundPlaced(v);
    PlacedAt(v, h);
    var a, at, f := Entries(v), At(v.blocks, h), SlashIf(false);
    var b := UpdateAt(v.l, at, f).book.entries;
    SlashOnce(false);
    UpdateEvolves(v.l, at, f);
    assert Follows(a[i], b[i]);
    if i in at {
      UpdateListed(v.l, at, f, i);
      JudgedDead(a[i]);
    } else if Live(b[i]) {
      UpdateElsewhere(v.l, at, f, i);
      forall k | 0 <= k < |at| && Live(a[at[k]])
        ensures Key(a[at[k]]) != Key(a[i])
      {
        assert at[k] != i;
      }
      assert a[i].blockHash != "" ==> Listed(v.blocks, a[i].blockHash, i);
    }
  }

  lemma JudgedDead(e: Entry)
    ensures !Live(Judged(e, SlashIf(false)))
  {}

  lemma {:induction false} RemoveBlocksKeeps(v: View, hs: seq<string>)
    requires Sound(v)
    ensures Placed(v) && Sound(RemoveBlocks(v, hs))
  {
    hide Sound, Placed, RemoveBlock;
    SoundPlaced(v);
    if hs != [] {
      RemoveBlocksKeeps(v, hs[..|hs| - 1]);
      RemoveBlockKeeps(RemoveBlocks(v, hs[..|hs| - 1]), hs[|hs| - 1]);
    }
  }

  lemma ValidatedKeeps(v: View, h: string, found: bool)
    requires Sound(v)
    ensures Placed(v) && Sound(Validated(v, h, found))
  {
    hide LedgerOk, InFlightOk, IndexOk, Fits, Counters, SlashBlock, PositionsOk;
    SoundPlaced(v);
    var w := v.(validating := v.validating - {h});
    SoundPlaced(w);
    SlashBlockKeeps(w, h, false);
  }

  lemma TrackInferenceKeeps(v: View, txid: string, daa: nat, amount: nat)
    requires Sound(v)
    ensures Shaped(v.l) && Sound(TrackInference(v, txid, daa, amount))
  {
    hide Sound, TrackEntry;
    SoundPlaced(v);
    TrackEntryKeeps(v, Fresh(txid, "", daa, amount, 1, true, LEGACY_WINDOW));
  }

  // ---- runs ----

  datatype Action =
    | BlockSeen(block: Block)
    | InferenceDone(txid: string, daa: nat, amount: nat)
    | Response(t: TxId, error: Option<Message>)
    | ValidationStarted
    | BlockValidated(hash: string, found: bool)
    | BlockUnknown(hash: string)
    | ChainRemoved(hashes: seq<string>)

  /** Every event keeps the invariant. */
  ghost function Act(cfg: Config, v: View, a: Action): (v': View)
    requires Sound(v)
    ensures Sound(v')
  {
    hide LedgerOk, InFlightOk, IndexOk, Fits, Counters, PositionsOk;
    SoundPlaced(v);
    match a
    case BlockSeen(block) => SeeBlockKeeps(cfg, v, block); SeeBlock(cfg, v, block).v
    case InferenceDone(txid, daa, amount) => TrackInferenceKeeps(v, txid, daa, amount); TrackInference(v, txid, daa, amount)
    case Response(t, error) => RespondKeeps(v, t, error); Respond(v, t, error)
    case ValidationStarted => v.(validating := LiveHashes(Entries(v)))
    case BlockValidated(hash, found) => ValidatedKeeps(v, hash, found); Validated(v, hash, found)
    case BlockUnknown(hash) => v.(validating := v.validating - {hash})
    case ChainRemoved(hashes) => RemoveBlocksKeeps(v, hashes); RemoveBlocks(v, hashes)
  }

  ghost function Run(cfg: Config, v: View, actions: seq<Action>): (v': View)
    requires Sound(v)
    ensures Sound(v')
  {
    hide Sound, Act;
    if actions == [] then v else Act(cfg, Run(cfg, v, actions[..|actions| - 1]), actions[|actions| - 1])
  }

  /** Entries a watcher may find on disk. */
  ghost predicate Loadable(entries: seq<Entry>) {
    && LiveUnique(entries)
    && forall i :: 0 <= i < |entries| && Live(entries[i]) ==> entries[i].orphanRetries < MAX_ORPHAN_RETRIES
  }

  function Births(entries: seq<Entry>): (stories: seq<Story>)
    ensures |stories| == |entries| && forall i :: 0 <= i < |entries| ==> stories[i] == Story(entries[i], [])
  {
    seq(|entries|, i requires 0 <= i < |entries| => Story(entries[i], []))
  }

  function Boot(snap: Snapshot): View {
    View(Ledger(Book(snap.entries, [], snap.last), Births(snap.entries)), map[], {}, 0, Keys(snap.entries),
         BlockIndex(snap.entries), {}, 0, false)
  }

  lemma BootSound(snap: Snapshot)
    requires Loadable(snap.entries)
    ensures Sound(Boot(snap))
  {
    hide Key, Live, BlockIndex, Keys, PositionsOk, AllListed, AllTracked, LiveUnique;
    RebuiltIndexOk(snap.entries);
    var v := Boot(snap);
    forall i | 0 <= i < |snap.entries|
      ensures EntryOk(Entries(v)[i], v.l.stories[i])
    {}
    assert Held(map[]) == {};
  }

  /** What a watcher leaves on disk can be loaded again. */
  lemma SavedIsLoadable(v: View)
    requires Sound(v)
    ensures Loadable(Entries(v))
  {
    hide IndexOk, LiveUnique, InFlightOk, Fits, DistinctKeys, Key, Live;
    assert LiveUnique(Entries(v)) by { UniqueFromIndex(v); }
    forall i | 0 <= i < |Entries(v)| && Live(Entries(v)[i])
      ensures Entries(v)[i].orphanRetries < MAX_ORPHAN_RETRIES
    {
      LiveBelowTen(Entries(v)[i], v.l.stories[i]);
    }
  }

  lemma UniqueFromIndex(v: View)
    requires Sound(v)
    ensures LiveUnique(Entries(v))
  {}

  // ---- what every run keeps ----

  /** In every run at most four claims are outstanding, no outpoint is in two of them, and the busy
      set is exactly their outpoints. */
  lemma OneClaimPerOutpoint(cfg: Config, snap: Snapshot, actions: seq<Action>)
    requires Loadable(snap.entries)
    ensures Sound(Boot(snap))
    ensures var v := Run(cfg, Boot(snap), actions);
      && |v.inFlight| <= 4
      && (forall t, u, o :: t in v.inFlight && u in v.inFlight && o in v.inFlight[t].outpoints && o in v.inFlight[u].outpoints ==> t == u)
      && forall o :: o in v.busy <==> exists t :: t in v.inFlight && o in v.inFlight[t].outpoints
  {
    hide Boot, Run, LedgerOk, IndexOk, Fits, Counters, ClaimOk;
    BootSound(snap);
    var v := Run(cfg, Boot(snap), actions);
    assert InFlightOk(v.inFlight, v.busy);
  }

  /** A response releases exactly the outpoints of its own claim. */
  lemma ResponseReleasesOwn(v: View, t: TxId, error: Option<Message>)
    requires Sound(v) && t in v.inFlight
    ensures var v' := Respond(v, t, error);
      && v'.inFlight == v.inFlight - {t}
      && (forall o :: o in v'.busy <==> o in v.busy && o !in v.inFlight[t].outpoints)
      && (forall u :: u in v.inFlight && u != t ==> OpSet(v.inFlight[u].outpoints) <= v'.busy)
  {
    hide LedgerOk, IndexOk, Fits, Counters, ClaimOk, UpdateAt, Hits, Judge;
    LedgerShaped(v.l);
    forall u | u in v.inFlight && u != t
      ensures OpSet(v.inFlight[u].outpoints) <= Respond(v, t, error).busy
    {
      assert Disjoint(v.inFlight[u].outpoints, v.inFlight[t].outpoints);
    }
  }

  /** A timeout releases exactly the outpoints of the claims that waited too long. */
  lemma TimeoutReleasesOwn(v: View, daa: nat, t: TxId, o: Outpoint)
    requires Sound(v) && t in v.inFlight && o in v.inFlight[t].outpoints
    ensures o in ExpireClaims(v, daa).busy <==> daa < v.inFlight[t].submitDaa + RESPONSE_TIMEOUT
  {
    hide LedgerOk, IndexOk, Fits, Counters, ClaimOk;
    var w := Waiting(v.inFlight, daa);
    if o in Held(w) {
      var u :| u in w && o in w[u].outpoints;
      assert u != t ==> Disjoint(v.inFlight[u].outpoints, v.inFlight[t].outpoints);
    }
    assert t in w ==> o in Held(w);
  }

  /** In every run an entry that was not excluded or itself burned is slashed only after ten solo orphan
      rejections of its own. */
  lemma NoSlashInAnyRun(v: View, i: nat)
    requires Sound(v) && i < |Entries(v)|
    requires var s := v.l.stories[i]; !s.birth.slashed && forall k :: 0 <= k < |s.causes| ==> !s.causes[k].Exclusion? && !Burns(Key(s.birth), s.causes[k])
    ensures var s := v.l.stories[i]; Entries(v)[i].slashed ==> s.birth.orphanRetries + SoloOrphans(s.causes) >= 10
  {
    hide AfterAll, RespectsCaps, IndexOk, InFlightOk, Fits, Counters, SoloOrphans, Burns, Key;
    assert EntryOk(Entries(v)[i], v.l.stories[i]);
    NoSlashByAssociation(v.l.stories[i].birth, v.l.stories[i].causes);
  }

  /** In every run a live entry is bisected at most six times between two expiries of its cap. */
  lemma BisectionInAnyRun(v: View, i: nat, from: nat, to: nat)
    requires Sound(v) && i < |Entries(v)| && Live(Entries(v)[i])
    requires var s := v.l.stories[i]; from <= to <= |s.causes| && NoExpiry(s.birth, s.causes, from, to)
    ensures var s := v.l.stories[i];
      && CapSettings(s.causes[from..to]) <= 6
      && (CapSettings(s.causes[from..to]) == 6 ==> Cap(AfterAll(s.birth, s.causes[..to])) == 1)
  {
    hide AfterAll, RespectsCaps, IndexOk, InFlightOk, Fits, Counters, CapSettings, Cap, Live, NoExpiry;
    assert EntryOk(Entries(v)[i], v.l.stories[i]);
    LifetimeBisectionEnds(v.l.stories[i].birth, v.l.stories[i].causes, from, to);
  }

  /** A rejected batch that sets caps leaves every live member with at most half its previous cap. */
  lemma BatchRejectionHalves(v: View, t: TxId, m: Message, i: nat)
    requires Sound(v) && t in v.inFlight && i < |Entries(v)| && Live(Entries(v)[i])
    requires i in Hits(Entries(v), v.inFlight[t].outpoints) && !m.duplicate
    requires SetsCap(Rejection(m, |v.inFlight[t].outpoints|, v.daa))
    ensures |Entries(Respond(v, t, Some(m)))| == |Entries(v)|
    ensures 2 * Cap(Entries(Respond(v, t, Some(m)))[i]) <= Cap(Entries(v)[i])
  {
    hide EntryOk, IndexOk, Counters, UpdateAt, Hits, After, SetsCap, Held, Cap, Key, Live;
    var c := v.inFlight[t];
    assert ClaimOk(t, c);
    var at := Hits(Entries(v), c.outpoints);
    var k :| 0 <= k < |at| && at[k] == i;
    assert Key(Entries(v)[at[k]]) in c.outpoints && FitsIn(Entries(v)[i], c);
    HitsDistinct(Entries(v), c.outpoints);
    UpdateListed(Release(v, t).l, at, Reject(m, |c.outpoints|, v.daa), i);
    CapHalves(Entries(v)[i], Rejection(m, |c.outpoints|, v.daa));
  }

  // ---- which entry a response reaches ----

  /** A response changes exactly the entries that are first under an outpoint of the claim. */
  lemma ResponseReachesFirst(v: View, t: TxId, error: Option<Message>, i: nat)
    requires Sound(v) && t in v.inFlight && i < |Entries(v)|
    ensures |Entries(Respond(v, t, error))| == |Entries(v)|
    ensures var e, ops := Entries(v)[i], v.inFlight[t].outpoints;
      Entries(Respond(v, t, error))[i] ==
        if Key(e) in ops && forall j :: 0 <= j < i ==> Key(Entries(v)[j]) != Key(e)
        then Judged(e, Judge(error, |ops|, v.daa)) else e
  {
    hide EntryOk, IndexOk, Counters, UpdateAt, Hits, Judge, Judged, Held, Key, Fits;
    var ops := v.inFlight[t].outpoints;
    assert ClaimOk(t, v.inFlight[t]);
    HitsDistinct(Entries(v), ops);
    HitsExactly(Entries(v), ops, i);
    var at := Hits(Entries(v), ops);
    if i in at {
      UpdateListed(Release(v, t).l, at, Judge(error, |ops|, v.daa), i);
    } else {
      UpdateElsewhere(Release(v, t).l, at, Judge(error, |ops|, v.daa), i);
    }
  }

  /** An accepted claim marks a live member claimed if and only if no earlier entry has its outpoint. */
  lemma AcceptanceReaches(v: View, t: TxId, i: nat)
    requires Sound(v) && t in v.inFlight && i < |Entries(v)|
    requires Live(Entries(v)[i]) && Key(Entries(v)[i]) in v.inFlight[t].outpoints
    ensures |Entries(Respond(v, t, None))| == |Entries(v)|
    ensures Entries(Respond(v, t, None))[i].claimed <==> forall j :: 0 <= j < i ==> Key(Entries(v)[j]) != Key(Entries(v)[i])
  {
    hide Sound, Respond, Key;
    ResponseReachesFirst(v, t, None, i);
  }

  /** Red and reorganised blocks slashed one by one through the index, or by scans of all entries. */
  function ScanAll(entries: seq<Entry>, hs: seq<string>): (r: seq<Entry>)
    ensures |r| == |entries|
  {
    if hs == [] then entries else ScanSlash(ScanAll(entries, hs[..|hs| - 1]), hs[|hs| - 1], true)
  }

  lemma {:induction false} SlashRedsIsScan(v: View, reds: seq<string>)
    requires Sound(v) && "" !in reds
    ensures Placed(v) && Entries(SlashReds(v, reds)) == ScanAll(Entries(v), reds)
  {
    hide Sound, Placed, UpdateAt, ScanSlash, SlashIf, IndexOk;
    SoundPlaced(v);
    if reds != [] {
      var k := |reds| - 1;
      SlashRedsIsScan(v, reds[..k]);
      SlashRedsKeeps(v, reds[..k]);
      SlashBlockIsScan(SlashReds(v, reds[..k]), reds[k], true);
    }
  }

  lemma SlashBlockIsScan(v: View, h: string, spare: bool)
    requires Sound(v) && h != ""
    ensures Placed(v) && Entries(SlashBlock(v, h, spare)) == ScanSlash(Entries(v), h, spare)
  {
    hide UpdateAt, SlashIf, ScanSlash, LedgerOk, InFlightOk, Fits, Counters, IndexOk, PositionsOk;
    SoundPlaced(v);
    PlacedAt(v, h);
    SlashByIndexIsScan(v.l, v.tracked, v.blocks, h, spare);
  }

  // ---- claims pay out ----

  /** A built claim spends its entries' outputs in order, in one window, and pays out their sum less
      the fee. */
  lemma ClaimConserves(es: seq<Entry>)
    requires BuildClaim(es).Built?
    ensures var tx := BuildClaim(es).tx;
      && tx.amountOut > 0 && tx.amountOut + CLAIM_FEE == Total(es)
      && |tx.inputs| == |es|
      && forall k :: 0 <= k < |es| ==> tx.inputs[k] == Key(es[k]) && es[k].csvWindow == tx.sequence && IsTxid(es[k].txid)
  {
    hide Total;
  }

  /** A selected batch never fails for mixing windows. */
  lemma SelectedNeverMixed(cfg: Config, v: View, daa: nat)
    requires Sound(v)
    ensures var batch := CB.Select(Context(cfg, v, daa));
      (forall k :: 0 <= k < |batch| ==> batch[k] < |Entries(v)|) && !BuildClaim(Pick(Entries(v), batch)).MixedWindows?
  {
    hide Sound, CB.Select, Member, Distinct;
    SelectedClaim(cfg, v, daa);
  }

  // ---- two entries of one outpoint ----

  predicate SoloOrphanOf(ops: seq<Outpoint>, m: Message, o: Outpoint) {
    !m.duplicate && m.orphan && ops == [o]
  }

  /** A rejection takes a counter past ten if and only if it is a solo orphan rejection that reaches,
      by first match, an entry already at ten; that entry is done, and its outpoint was entered
      twice. */
  lemma CounterPastTenIff(v: View, t: TxId, m: Message, i: nat)
    requires Sound(v) && t in v.inFlight && i < |Entries(v)| && Entries(v)[i].orphanRetries <= 10
    ensures |Entries(Respond(v, t, Some(m)))| == |Entries(v)|
    ensures Entries(Respond(v, t, Some(m)))[i].orphanRetries > 10 <==>
      && Entries(v)[i].orphanRetries == 10
      && SoloOrphanOf(v.inFlight[t].outpoints, m, Key(Entries(v)[i]))
      && forall j :: 0 <= j < i ==> Key(Entries(v)[j]) != Key(Entries(v)[i])
    ensures Entries(Respond(v, t, Some(m)))[i].orphanRetries > 10 ==> !Live(Entries(v)[i]) && !DistinctKeys(Entries(v))
  {
    hide Respond, Key, AfterAll, RespectsCaps, IndexOk, Fits, Live, Held, DistinctKeys, After, Disjoint;
    var e, ops := Entries(v)[i], v.inFlight[t].outpoints;
    ResponseReachesFirst(v, t, Some(m), i);
    assert ClaimOk(t, v.inFlight[t]);
    assert |ops| == 1 ==> ops == [ops[0]];
    RetriesStep(e, Rejection(m, |ops|, v.daa));
    RetriesStep(e, Acceptance);
    assert EntryOk(e, v.l.stories[i]);
    assert Key(e) in ops ==> Key(e) in v.busy by { HeldHas(v.inFlight, t); }
    assert DistinctKeys(Entries(v)) ==> CountOk(e, v.l.stories[i].birth, v.busy);
  }

  /** In every run, while no outpoint is entered twice, no orphan counter passes ten unless its entry
      was loaded with more. */
  lemma CountersInAnyRun(v: View, i: nat)
    requires Sound(v) && i < |Entries(v)| && DistinctKeys(Entries(v))
    ensures |v.l.stories| == |Entries(v)|
    ensures Entries(v)[i].orphanRetries <= 10 || Entries(v)[i].orphanRetries <= v.l.stories[i].birth.orphanRetries
  {
    hide EntryOk, IndexOk, InFlightOk, Fits, DistinctKeys;
    assert CountOk(Entries(v)[i], v.l.stories[i].birth, v.busy);
  }
}
