/** `EscrowWatcher`: the loops over its fields, each proved against the machine's step. */
module EscrowWatcher {
  import opened EscrowEntry
  import opened EscrowBook
  import opened EscrowLedger
  import opened EscrowMachine
  import opened EscrowRuns
  import opened Wrappers
  import CB = ClaimBatch

  datatype Outcome = NotOurs | Handled | Accepted(outputs: nat, amount: nat)

  class Watcher {
    const cfg: Config
    var book: Book
    ghost var stories: seq<Story>
    var inFlight: InFlight
    var busy: set<Outpoint>
    var lastDaa: nat
    var tracked: set<Outpoint>
    var blockIndex: map<string, seq<nat>>
    var validating: set<string>
    var sinceCompact: nat
    var snapshotDue: bool

    ghost function L(): Ledger
      reads this
    {
      Ledger(book, stories)
    }

    /** The machine state the fields stand for. */
    ghost function V(): View
      reads this
    {
      View(L(), inFlight, busy, lastDaa, tracked, blockIndex, validating, sinceCompact, snapshotDue)
    }

    ghost predicate Valid()
      reads this
    {
      Sound(V())
    }

    constructor (cfg: Config, snap: Snapshot)
      ensures this.cfg == cfg && V() == Boot(snap)
      ensures Loadable(snap.entries) ==> Valid()
    {
      this.cfg := cfg;
      book, stories := Book(snap.entries, [], snap.last), Births(snap.entries);
      inFlight, busy, lastDaa, validating, sinceCompact, snapshotDue := map[], {}, 0, {}, 0, false;
      new;
      hide Sound, Loadable, BlockIndex, Keys;
      RebuildIndexes();
      if Loadable(snap.entries) { BootSound(snap); }
    }

    /** `rebuild_indexes` */
    method RebuildIndexes()
      modifies this`tracked, this`blockIndex
      ensures tracked == Keys(book.entries) && blockIndex == BlockIndex(book.entries)
    {
      tracked, blockIndex := {}, map[];
      for i := 0 to |book.entries|
        invariant tracked == Keys(book.entries[..i]) && blockIndex == BlockIndex(book.entries[..i])
      {
        var e := book.entries[i];
        assert book.entries[..i + 1] == book.entries[..i] + [e];
        KeysSnoc(book.entries[..i], e);
        tracked := tracked + {Key(e)};
        if e.blockHash != "" {
          blockIndex := blockIndex[e.blockHash := At(blockIndex, e.blockHash) + [i]];
        }
      }
      assert book.entries[..|book.entries|] == book.entries;
    }

    /** `compact` */
    method Compact()
      requires Shaped(L())
      modifies this`book, this`stories, this`tracked, this`blockIndex, this`snapshotDue
      ensures V() == CompactNow(old(V()))
    {
      hide LiveOnly, LiveStories, Keys, BlockIndex;
      var kept := RetainLive(book.entries);
      if |kept| != |book.entries| {
        stories := LiveStories(book.entries, stories);
        book := book.(entries := kept);
        RebuildIndexes();
        snapshotDue := true;
      }
    }

    /** `expire_in_flight` */
    method ExpireInFlight(daa: nat)
      requires Valid()
      modifies this`inFlight, this`busy
      ensures V() == ExpireClaims(old(V()), daa)
    {
      hide LedgerOk, IndexOk, Fits, Counters, InFlightOk, Held, Expired, OpSet;
      ghost var before := inFlight;
      var expired := set t | t in inFlight && Expired(inFlight[t], daa);
      while expired != {}
        invariant InFlightOk(inFlight, busy)
        invariant forall t :: t in inFlight ==> t in before && inFlight[t] == before[t]
        invariant forall t :: t in before && !Expired(before[t], daa) ==> t in inFlight
        invariant forall t :: t in expired <==> t in inFlight && Expired(inFlight[t], daa)
        decreases |expired|
      {
        var t :| t in expired;
        ReleaseKeeps(inFlight, busy, t);
        busy := busy - OpSet(inFlight[t].outpoints);
        inFlight := inFlight - {t};
        expired := expired - {t};
      }
      assert inFlight == Waiting(before, daa);
      BusyIsHeld(inFlight, busy);
    }

    /** One entry judged in place, with its journal line. */
    method JudgeEntry(i: nat, f: Verdict)
      requires Shaped(L()) && i < |book.entries|
      modifies this`book, this`stories
      ensures L() == UpdateOne(old(L()), i, f)
    {
      match f(book.entries[i]) {
        case None =>
        case Some(c) =>
          stories := stories[i := Story(stories[i].birth, stories[i].causes + [c])];
          book := Put(book, i, After(book.entries[i], c));
      }
    }

    /** The entries at these positions, one after another. */
    method JudgeAll(at: seq<nat>, f: Verdict)
      requires Shaped(L()) && forall k :: 0 <= k < |at| ==> at[k] < |book.entries|
      modifies this`book, this`stories
      ensures L() == UpdateAt(old(L()), at, f)
    {
      hide UpdateOne;
      for k := 0 to |at|
        invariant Shaped(L()) && |book.entries| == |old(book.entries)|
        invariant L() == UpdateAt(old(L()), at[..k], f)
      {
        assert at[..k + 1][..k] == at[..k];
        JudgeEntry(at[k], f);
      }
      assert at[..|at|] == at;
    }

    /** Red-set slashing in `handle_block`. */
    method SlashRedBlocks(reds: seq<string>)
      requires Placed(V())
      modifies this`book, this`stories
      ensures V() == SlashReds(old(V()), reds)
    {
      hide Placed, UpdateAt, SlashIf;
      for k := 0 to |reds|
        invariant Placed(old(V())) && V() == SlashReds(old(V()), reds[..k])
      {
        assert reds[..k + 1][..k] == reds[..k];
        ghost var v := V();
        PlacedAt(v, reds[k]);
        PlacedShape(v);
        if reds[k] in blockIndex {
          var at := blockIndex[reds[k]];
          assert at == At(v.blocks, reds[k]);
          JudgeAll(at, SlashIf(true));
        } else {
          UpdateNone(v.l, SlashIf(true));
        }
        assert V() == SlashBlock(v, reds[k], true);
      }
      assert reds[..|reds|] == reds;
    }

    /** A new entry, unless its outpoint is tracked already. */
    method Track(e: Entry)
      requires Shaped(L())
      modifies this`book, this`stories, this`tracked, this`blockIndex
      ensures V() == TrackEntry(old(V()), e)
    {
      if Key(e) !in tracked {
        var i := |book.entries|;
        stories := stories + [Story(e, [])];
        book := Push(book, e);
        tracked := tracked + {Key(e)};
        if e.blockHash != "" {
          blockIndex := blockIndex[e.blockHash := At(blockIndex, e.blockHash) + [i]];
        }
      }
    }

    /** `track_block_escrows` */
    method TrackBlockEscrows(block: Block, daa: nat)
      requires Shaped(L())
      modifies this`book, this`stories, this`tracked, this`blockIndex
      ensures V() == TrackBlock(cfg, old(V()), block, daa)
    {
      hide TrackEntry, WindowPaid, Coinbase;
      if block.verbose.None? || !block.verbose.value.isChain { return; }
      var cb := Coinbase(block.txs);
      if cb.None? || cb.value.txid.None? || cb.value.txid.value == "" { return; }
      var txid, hash, outs := cb.value.txid.value, block.verbose.value.hash, cb.value.outputs;
      for k := 0 to |outs|
        invariant Shaped(old(L())) && V() == TrackOutputs(cfg, old(V()), txid, hash, daa, outs[..k])
      {
        assert outs[..k + 1][..k] == outs[..k];
        var window := WindowPaid(cfg, outs[k]);
        if window.Some? {
          Track(Fresh(txid, hash, daa, outs[k].amount, k, false, window.value));
        }
      }
      assert outs[..|outs|] == outs;
    }

    /** `track_inference_escrow` */
    method TrackInferenceEscrow(txid: string, daa: nat, amount: nat)
      requires Valid()
      modifies this
      ensures V() == TrackInference(old(V()), txid, daa, amount) && Valid()
    {
      hide Sound, TrackEntry;
      SoundPlaced(V());
      TrackInferenceKeeps(V(), txid, daa, amount);
      if amount != 0 {
        Track(Fresh(txid, "", daa, amount, 1, true, LEGACY_WINDOW));
      }
    }

    /** `find_claim` */
    method FindNextClaim(daa: nat) returns (tx: Option<ClaimTx>)
      requires Valid()
      modifies this`book, this`stories, this`inFlight, this`busy
      ensures Found(V(), tx) == FindClaim(cfg, old(V()), daa)
    {
      hide Sound, UpdateAt, Heal, CB.Select, BuildClaim, OpSet;
      SoundPlaced(V());
      if |inFlight| >= MAX_IN_FLIGHT || validating != {} { return None; }
      JudgeAll(CB.Upto(|book.entries|), Heal(daa));
      var c := CB.Ctx(book.entries, daa, CsvWindow(cfg, daa), busy);
      assert c == Context(cfg, V(), daa);
      var batch := CB.SelectClaimBatch(c);
      CB.SelectMembers(c);
      var build := BuildClaim(Pick(book.entries, batch));
      match build {
        case Built(t) =>
          busy := busy + OpSet(t.inputs);
          inFlight := inFlight[TxId(t.inputs) := Claim(t.inputs, daa)];
          tx := Some(t);
        case _ =>
          tx := None;
      }
    }

    /** Compaction every so many blocks. */
    method CountBlock()
      requires Shaped(L())
      modifies this`book, this`stories, this`tracked, this`blockIndex, this`snapshotDue, this`sinceCompact
      ensures V() == Tick(old(V()))
    {
      hide CompactNow;
      sinceCompact := sinceCompact + 1;
      if sinceCompact >= COMPACT_EVERY {
        sinceCompact := 0;
        Compact();
      }
    }

    /** `handle_block` */
    method HandleBlock(block: Block) returns (tx: Option<ClaimTx>)
      requires Valid()
      modifies this
      ensures Placed(old(V())) && Found(V(), tx) == SeeBlock(cfg, old(V()), block) && Valid()
    {
      hide LedgerOk, InFlightOk, IndexOk, Fits, Counters, ExpireClaims, Tick, SlashReds, TrackBlock, FindClaim, PositionsOk;
      SoundPlaced(V());
      SeeBlockKeeps(cfg, V(), block);
      if block.daa.None? { return None; }
      var daa := block.daa.value;
      lastDaa := daa;
      ghost var v := V();
      ExpireInFlight(daa);
      ExpireKeeps(v, daa);
      SoundPlaced(V());
      TickPlaced(V());
      TickKeeps(V());
      CountBlock();
      var reds := if block.verbose.Some? then block.verbose.value.reds else [];
      SlashRedsKeeps(V(), reds);
      SlashRedBlocks(reds);
      SoundPlaced(V());
      TrackBlockKeeps(cfg, V(), block, daa);
      TrackBlockEscrows(block, daa);
      tx := FindNextClaim(daa);
    }

    /** `mark_entries_claimed`: the amount is what the claimed total grows by. */
    method MarkEntriesClaimed(ops: seq<Outpoint>) returns (amount: nat)
      requires Shaped(L())
      modifies this`book, this`stories
      ensures L() == UpdateAt(old(L()), Hits(old(book.entries), ops), Accept())
      ensures ClaimedTotal(book.entries) == ClaimedTotal(old(book.entries)) + amount
    {
      hide UpdateAt, UpdateOne, Accept, ClaimedTotal, FirstIndex, Hits;
      amount := 0;
      ghost var l := L();
      HitsNone(l, Accept());
      for k := 0 to |ops|
        invariant Shaped(L()) && L() == UpdateAt(l, Hits(l.book.entries, ops[..k]), Accept())
        invariant ClaimedTotal(book.entries) == ClaimedTotal(l.book.entries) + amount
      {
        HitsStep(l, ops, k, Accept());
        var i := FirstIndex(book.entries, ops[k]);
        if i.Some? {
          AcceptOne(L(), i.value);
          amount := amount + if book.entries[i.value].claimed then 0 else book.entries[i.value].amount;
          JudgeEntry(i.value, Accept());
        }
      }
      assert ops[..|ops|] == ops;
    }

    /** The rejection branch of `on_submit_response`. */
    method ApplyRejection(ops: seq<Outpoint>, m: Message)
      requires Shaped(L())
      modifies this`book, this`stories
      ensures L() == UpdateAt(old(L()), Hits(old(book.entries), ops), Reject(m, |ops|, lastDaa))
    {
      hide UpdateAt, UpdateOne, Reject, FirstIndex, Hits;
      ghost var l := L();
      var f := Reject(m, |ops|, lastDaa);
      HitsNone(l, f);
      for k := 0 to |ops|
        invariant Shaped(L()) && L() == UpdateAt(l, Hits(l.book.entries, ops[..k]), f)
      {
        HitsStep(l, ops, k, f);
        var i := FirstIndex(book.entries, ops[k]);
        if i.Some? {
          JudgeEntry(i.value, f);
        }
      }
      assert ops[..|ops|] == ops;
    }

    /** `on_submit_response`: the claim is found by its id or by its mention in the error text. */
    method OnSubmitResponse(txid: Option<TxId>, error: Option<Message>) returns (outcome: Outcome, ghost matched: Option<TxId>)
      requires Valid()
      modifies this
      ensures matched.None? <==> outcome.NotOurs?
      ensures matched.Some? ==> matched.value in old(inFlight)
      ensures txid.Some? && txid.value in old(inFlight) ==> matched == txid
      ensures matched.Some? && matched != txid ==> error.Some? && matched.value in error.value.mentions
      ensures matched.None? ==> error.Some? ==> forall t :: t in error.value.mentions ==> t !in old(inFlight)
      ensures Shaped(old(L())) && V() == (if matched.Some? then Respond(old(V()), matched.value, error) else old(V())) && Valid()
      ensures outcome.Accepted? <==> matched.Some? && MeansAccepted(error)
      ensures outcome.Accepted? ==>
        && outcome.outputs == |old(inFlight)[matched.value].outpoints|
        && ClaimedTotal(book.entries) == ClaimedTotal(old(book.entries)) + outcome.amount
    {
      hide Sound, UpdateAt, Hits, ClaimedTotal, OpSet, Accept, Reject;
      SoundPlaced(V());
      ghost var v := V();
      matched := None;
      var t: TxId;
      if txid.Some? && txid.value in inFlight {
        t := txid.value;
      } else if error.Some? && exists u :: u in inFlight && u in error.value.mentions {
        t :| t in inFlight && t in error.value.mentions;
      } else {
        return NotOurs, None;
      }
      matched := Some(t);
      RespondKeeps(v, t, error);
      var ops := inFlight[t].outpoints;
      busy := busy - OpSet(ops);
      inFlight := inFlight - {t};
      if MeansAccepted(error) {
        var amount := MarkEntriesClaimed(ops);
        outcome := Accepted(|ops|, amount);
      } else {
        ApplyRejection(ops, error.value);
        outcome := Handled;
      }
    }

    /** `start_state_validation` */
    method StartStateValidation() returns (hashes: set<string>)
      requires Valid()
      modifies this
      ensures V() == old(V()).(validating := hashes) && hashes == LiveHashes(book.entries) && Valid()
    {
      hide LedgerOk, InFlightOk, IndexOk, Fits, Counters;
      hashes := CollectHashes(book.entries);
      validating := hashes;
    }

    /** `on_block_validated` */
    method OnBlockValidated(hash: string, found: bool)
      requires Valid()
      modifies this
      ensures Placed(old(V())) && V() == Validated(old(V()), hash, found) && Valid()
    {
      hide Sound, UpdateAt, SlashIf, PositionsOk;
      SoundPlaced(V());
      ValidatedKeeps(V(), hash, found);
      if hash !in validating { return; }
      validating := validating - {hash};
      if !found {
        PlacedAt(V(), hash);
        UpdateNone(L(), SlashIf(false));
        if hash in blockIndex {
          JudgeAll(blockIndex[hash], SlashIf(false));
        }
      }
    }

    /** `on_chain_blocks_removed` */
    method OnChainBlocksRemoved(hashes: seq<string>)
      requires Valid()
      modifies this
      ensures Placed(old(V())) && V() == RemoveBlocks(old(V()), hashes) && Valid()
    {
      hide Sound, Placed, RemoveBlock;
      SoundPlaced(V());
      RemoveBlocksKeeps(V(), hashes);
      for k := 0 to |hashes|
        invariant Placed(old(V())) && V() == RemoveBlocks(old(V()), hashes[..k])
      {
        assert hashes[..k + 1][..k] == hashes[..k];
        PurgeBlock(hashes[k]);
      }
      assert hashes[..|hashes|] == hashes;
    }

    method PurgeBlock(h: string)
      requires Placed(V())
      modifies this`book, this`stories, this`tracked, this`blockIndex
      ensures V() == RemoveBlock(old(V()), h)
    {
      hide PositionsOk, UpdateOne, SlashIf, Live, Key;
      ghost var v := V();
      PlacedAt(v, h);
      if h !in blockIndex {
        UpdateNone(v.l, SlashIf(false));
        assert LiveKeys(v.l.book.entries, []) == {} && v.blocks - {h} == v.blocks;
        return;
      }
      var at := blockIndex[h];
      assert at == At(v.blocks, h) && forall k :: 0 <= k < |at| ==> at[k] < |v.l.stories|;
      blockIndex := blockIndex - {h};
      for k := 0 to |at|
        invariant Shaped(L()) && |book.entries| == |v.l.book.entries|
        invariant L() == UpdateAt(v.l, at[..k], SlashIf(false))
        invariant tracked == v.tracked - LiveKeys(v.l.book.entries, at[..k]) && blockIndex == v.blocks - {h}
      {
        assert at[..k + 1][..k] == at[..k];
        PurgeStep(v.l, at, k);
        if Live(book.entries[at[k]]) {
          tracked := tracked - {Key(book.entries[at[k]])};
        }
        JudgeEntry(at[k], SlashIf(false));
      }
      assert at[..|at|] == at;
    }
  }

  // ---- loop steps ----

  method RetainLive(entries: seq<Entry>) returns (kept: seq<Entry>)
    ensures kept == LiveOnly(entries)
  {
    hide Live;
    kept := [];
    for i := 0 to |entries|
      invariant kept == LiveOnly(entries[..i])
    {
      assert entries[..i + 1][..i] == entries[..i];
      if Live(entries[i]) { kept := kept + [entries[i]]; }
    }
    assert entries[..|entries|] == entries;
  }

  method CollectHashes(entries: seq<Entry>) returns (hashes: set<string>)
    ensures hashes == LiveHashes(entries)
  {
    hide Live;
    hashes := {};
    for i := 0 to |entries|
      invariant hashes == LiveHashes(entries[..i])
    {
      var e := entries[i];
      HashesSnoc(entries[..i], e);
      assert entries[..i + 1] == entries[..i] + [e];
      if Live(e) && e.blockHash != "" {
        hashes := hashes + {e.blockHash};
      }
    }
    assert entries[..|entries|] == entries;
  }

  lemma HitsNone(l: Ledger, f: Verdict)
    requires Shaped(l)
    ensures UpdateAt(l, Hits(l.book.entries, []), f) == l
  {}

  /** The next outpoint is looked up among entries already judged, and found where it was before. */
  lemma HitsStep(l: Ledger, ops: seq<Outpoint>, k: nat, f: Verdict)
    requires Shaped(l) && k < |ops|
    ensures var now := UpdateAt(l, Hits(l.book.entries, ops[..k]), f);
      match FirstIndex(now.book.entries, ops[k])
      case None => UpdateAt(l, Hits(l.book.entries, ops[..k + 1]), f) == now
      case Some(i) => UpdateAt(l, Hits(l.book.entries, ops[..k + 1]), f) == UpdateOne(now, i, f)
  {
    hide UpdateOne, Evolved, FirstIndex;
    var at := Hits(l.book.entries, ops[..k]);
    assert ops[..k + 1][..k] == ops[..k];
    UpdateEvolves(l, at, f);
    SameFirst(l.book.entries, UpdateAt(l, at, f).book.entries, ops[k]);
    var i := FirstIndex(l.book.entries, ops[k]);
    if i.Some? {
      assert Hits(l.book.entries, ops[..k + 1]) == at + [i.value];
      assert (at + [i.value])[..|at|] == at;
    } else {
      assert Hits(l.book.entries, ops[..k + 1]) == at + [] == at;
    }
  }

  lemma KeysSnoc(a: seq<Entry>, e: Entry)
    ensures Keys(a + [e]) == Keys(a) + {Key(e)}
  {
    var b := a + [e];
    forall k
      ensures k in Keys(b) <==> k in Keys(a) + {Key(e)}
    {
      assert b[|a|] == e;
      assert forall i :: 0 <= i < |a| ==> b[i] == a[i];
    }
  }

  lemma HashesSnoc(a: seq<Entry>, e: Entry)
    ensures LiveHashes(a + [e]) == LiveHashes(a) + if Live(e) && e.blockHash != "" then {e.blockHash} else {}
  {
    hide Live;
    var b := a + [e];
    assert b[|a|] == e;
    assert forall i :: 0 <= i < |a| ==> b[i] == a[i];
  }

  lemma BusyIsHeld(fl: InFlight, busy: set<Outpoint>)
    requires InFlightOk(fl, busy)
    ensures busy == Held(fl)
  {}

  lemma UpdateNone(l: Ledger, f: Verdict)
    requires Shaped(l)
    ensures UpdateAt(l, [], f) == l
  {}

  lemma AcceptOne(l: Ledger, i: nat)
    requires Shaped(l) && i < |l.stories|
    ensures ClaimedTotal(UpdateOne(l, i, Accept()).book.entries)
         == ClaimedTotal(l.book.entries) + if l.book.entries[i].claimed then 0 else l.book.entries[i].amount
  {
    hide ClaimedTotal;
    ClaimOneAdds(l.book.entries, i);
  }

  /** Purging position `k`: what it was before the purge decides whether its outpoint is freed. */
  lemma PurgeStep(l: Ledger, at: seq<nat>, k: nat)
    requires Shaped(l) && k < |at| && forall j :: 0 <= j < |at| ==> at[j] < |l.stories|
    ensures var now := UpdateAt(l, at[..k], SlashIf(false)).book.entries[at[k]];
      && Key(now) == Key(l.book.entries[at[k]])
      && LiveKeys(l.book.entries, at[..k + 1]) == LiveKeys(l.book.entries, at[..k]) + if Live(now) then {Key(now)} else {}
  {
    hide UpdateAt, SlashIf, Live, Key;
    var a, f := l.book.entries, SlashIf(false);
    UpdateEvolves(l, at[..k], f);
    var b := UpdateAt(l, at[..k], f).book.entries;
    assert Follows(a[at[k]], b[at[k]]);
    LiveKeysSnoc(a, at, k);
    if at[k] in at[..k] {
      SlashOnce(false);
      UpdateListed(l, at[..k], f, at[k]);
      JudgedDead(a[at[k]]);
      var j :| 0 <= j < k && at[..k][j] == at[k];
      assert Live(a[at[k]]) ==> Key(a[at[..k][j]]) in LiveKeys(a, at[..k]);
    } else {
      UpdateElsewhere(l, at[..k], f, at[k]);
    }
  }

  lemma LiveKeysSnoc(a: seq<Entry>, at: seq<nat>, k: nat)
    requires k < |at| && forall j :: 0 <= j < |at| ==> at[j] < |a|
    ensures LiveKeys(a, at[..k + 1]) == LiveKeys(a, at[..k]) + if Live(a[at[k]]) then {Key(a[at[k]])} else {}
  {
    hide Live, Key;
    var p, q := at[..k], at[..k + 1];
    assert q[k] == at[k] && forall j :: 0 <= j < k ==> q[j] == p[j];
  }
}
