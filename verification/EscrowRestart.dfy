/** The watcher on its files: whatever it does is journalled, and whatever a restart loads it can run
    from. */
module EscrowRestart {
  import opened EscrowEntry
  import opened EscrowBook
  import opened EscrowLedger
  import opened EscrowMachine
  import opened EscrowRuns
  import CB = ClaimBatch
  import Disk = EscrowCrash

  // ---- every event is a run of journalled changes ----

  /** `s'` is reached from `s` by changes in memory alone. */
  ghost predicate Continues(s: Disk.Sys, s': Disk.Sys) {
    && Disk.Reachable(s') && s'.disk == s.disk && s'.base == s.base && s'.synced == s.synced && s'.lost == s.lost
    && s.since <= s'.since
  }

  /** The process holds the watcher's book. */
  ghost predicate Holds(s: Disk.Sys, v: View) {
    Disk.Reachable(s) && Shaped(v.l) && s.book == v.l.book
  }

  /** `s'` holds the book of `v'`, having come from `s`. */
  ghost predicate ComesTo(s: Disk.Sys, s': Disk.Sys, v': View) {
    Continues(s, s') && Holds(s', v')
  }

  lemma MemoryIsFine(s: Disk.Sys)
    requires Disk.Reachable(s)
    ensures Disk.Fine(s.book.entries)
  {
    hide Disk.Inv, Disk.Runs;
    var actions :| Disk.Runs(actions, s);
    Disk.RunsKeepInv(actions, s);
    Disk.MemoryFine(s);
  }

  lemma {:induction false} UpdateJournalled(s: Disk.Sys, v: View, at: seq<nat>, f: Verdict) returns (s': Disk.Sys)
    requires Holds(s, v) && forall k :: 0 <= k < |at| ==> at[k] < |v.l.stories|
    ensures ComesTo(s, s', Update(v, at, f))
  {
    hide Disk.Reachable, After, EscrowEntry.Follows, Hopeful;
    s' := s;
    if at != [] {
      var m := |at| - 1;
      s' := UpdateJournalled(s, v, at[..m], f);
      var e := s'.book.entries[at[m]];
      if f(e).Some? {
        var e' := After(e, f(e).value);
        AfterFollows(e, f(e).value);
        MemoryIsFine(s');
        assert Hopeful(e);
        AfterHopeful(e, f(e).value);
        s' := Disk.Next(s', Disk.Change(at[m], e'));
      }
    }
  }

  lemma TrackJournalled(s: Disk.Sys, v: View, e: Entry) returns (s': Disk.Sys)
    requires Holds(s, v) && IsFresh(e) && AllTracked(Entries(v), v.tracked)
    ensures ComesTo(s, s', TrackEntry(v, e))
  {
    hide Disk.Reachable, Key, Live;
    s' := s;
    if Key(e) !in v.tracked {
      assert Hopeful(e) by { FreshHopeful(e); }
      s' := Disk.Next(s, Disk.Track(e));
    }
  }

  lemma FreshHopeful(e: Entry)
    requires IsFresh(e)
    ensures Hopeful(e)
  {}

  lemma SoundTracked(v: View)
    requires Sound(v)
    ensures Shaped(v.l) && AllTracked(Entries(v), v.tracked) && Placed(v)
  {}

  lemma {:induction false} OutputsJournalled(s: Disk.Sys, cfg: Config, v: View, txid: string, hash: string, daa: nat, outs: seq<Output>)
    returns (s': Disk.Sys)
    requires Holds(s, v) && Sound(v)
    ensures ComesTo(s, s', TrackOutputs(cfg, v, txid, hash, daa, outs))
  {
    hide Disk.Reachable, Sound, TrackEntry, WindowPaid, AllTracked;
    s' := s;
    if outs != [] {
      var k := |outs| - 1;
      s' := OutputsJournalled(s, cfg, v, txid, hash, daa, outs[..k]);
      TrackOutputsKeeps(cfg, v, txid, hash, daa, outs[..k]);
      var w := TrackOutputs(cfg, v, txid, hash, daa, outs[..k]);
      SoundTracked(w);
      var window := WindowPaid(cfg, outs[k]);
      if window.Some? {
        s' := TrackJournalled(s', w, Fresh(txid, hash, daa, outs[k].amount, k, false, window.value));
      }
    }
  }

  lemma TrackBlockJournalled(s: Disk.Sys, cfg: Config, v: View, block: Block, daa: nat) returns (s': Disk.Sys)
    requires Holds(s, v) && Sound(v)
    ensures ComesTo(s, s', TrackBlock(cfg, v, block, daa))
  {
    hide Disk.Reachable, Sound, TrackOutputs, Coinbase;
    s' := s;
    var cb := Coinbase(block.txs);
    if !(block.verbose.None? || !block.verbose.value.isChain || cb.None? || cb.value.txid.None? || cb.value.txid.value == "") {
      s' := OutputsJournalled(s, cfg, v, cb.value.txid.value, block.verbose.value.hash, daa, cb.value.outputs);
    }
  }

  lemma TickJournalled(s: Disk.Sys, v: View) returns (s': Disk.Sys)
    requires Holds(s, v)
    ensures ComesTo(s, s', Tick(v))
  {
    hide Disk.Reachable, LiveOnly, LiveStories, Keys, BlockIndex;
    s' := s;
    if v.sinceCompact + 1 >= COMPACT_EVERY && |LiveOnly(Entries(v))| != |Entries(v)| {
      s' := Disk.Next(s, Disk.Compact);
    }
  }

  lemma SlashJournalled(s: Disk.Sys, v: View, h: string, spare: bool) returns (s': Disk.Sys)
    requires Holds(s, v) && Placed(v)
    ensures ComesTo(s, s', SlashBlock(v, h, spare))
  {
    hide Disk.Reachable, UpdateAt, SlashIf, PositionsOk;
    PlacedAt(v, h);
    s' := UpdateJournalled(s, v, At(v.blocks, h), SlashIf(spare));
  }

  lemma {:induction false} RedsJournalled(s: Disk.Sys, v: View, reds: seq<string>) returns (s': Disk.Sys)
    requires Holds(s, v) && Placed(v)
    ensures ComesTo(s, s', SlashReds(v, reds))
  {
    hide Disk.Reachable, Placed, SlashBlock;
    s' := s;
    if reds != [] {
      s' := RedsJournalled(s, v, reds[..|reds| - 1]);
      s' := SlashJournalled(s', SlashReds(v, reds[..|reds| - 1]), reds[|reds| - 1], true);
    }
  }

  lemma ClaimJournalled(s: Disk.Sys, cfg: Config, v: View, daa: nat) returns (s': Disk.Sys)
    requires Holds(s, v)
    ensures ComesTo(s, s', FindClaim(cfg, v, daa).v)
  {
    hide Disk.Reachable, UpdateAt, Heal, CB.Select, BuildClaim;
    s' := s;
    if |v.inFlight| < MAX_IN_FLIGHT && v.validating == {} {
      s' := UpdateJournalled(s, v, CB.Upto(|Entries(v)|), Heal(daa));
      CB.SelectMembers(Context(cfg, HealAll(v, daa), daa));
    }
  }

  lemma BlockJournalled(s: Disk.Sys, cfg: Config, v: View, block: Block) returns (s': Disk.Sys)
    requires Holds(s, v) && Sound(v)
    ensures Placed(v) && ComesTo(s, s', SeeBlock(cfg, v, block).v)
  {
    hide Disk.Reachable, LedgerOk, InFlightOk, IndexOk, Fits, Counters, Tick, SlashReds, TrackBlock, FindClaim, PositionsOk;
    SoundPlaced(v);
    s' := s;
    if block.daa.Some? {
      var daa := block.daa.value;
      ExpireKeeps(v.(daa := daa), daa);
      var v1 := ExpireClaims(v.(daa := daa), daa);
      SoundPlaced(v1);
      TickPlaced(v1);
      TickKeeps(v1);
      s' := TickJournalled(s', v1);
      var reds := if block.verbose.Some? then block.verbose.value.reds else [];
      SlashRedsKeeps(Tick(v1), reds);
      s' := RedsJournalled(s', Tick(v1), reds);
      var v3 := SlashReds(Tick(v1), reds);
      TrackBlockKeeps(cfg, v3, block, daa);
      s' := TrackBlockJournalled(s', cfg, v3, block, daa);
      s' := ClaimJournalled(s', cfg, TrackBlock(cfg, v3, block, daa), daa);
    }
  }

  lemma {:induction false} RemovalsJournalled(s: Disk.Sys, v: View, hs: seq<string>) returns (s': Disk.Sys)
    requires Holds(s, v) && Placed(v)
    ensures ComesTo(s, s', RemoveBlocks(v, hs))
  {
    hide Disk.Reachable, Placed, SlashBlock;
    s' := s;
    if hs != [] {
      s' := RemovalsJournalled(s, v, hs[..|hs| - 1]);
      var w := RemoveBlocks(v, hs[..|hs| - 1]);
      s' := SlashJournalled(s', w, hs[|hs| - 1], false);
    }
  }

  /** Every event of the watcher is a run of journalled changes of its book. */
  lemma ActIsJournalled(s: Disk.Sys, cfg: Config, v: View, a: Action) returns (s': Disk.Sys)
    requires Holds(s, v) && Sound(v)
    ensures ComesTo(s, s', Act(cfg, v, a))
  {
    hide Disk.Reachable, Sound, SeeBlock, RemoveBlocks, SlashBlock, UpdateAt, Hits, Judge, TrackEntry, AllTracked, Placed;
    SoundTracked(v);
    s' := s;
    match a
    case BlockSeen(block) => s' := BlockJournalled(s, cfg, v, block);
    case InferenceDone(txid, daa, amount) =>
      if amount != 0 { s' := TrackJournalled(s, v, Fresh(txid, "", daa, amount, 1, true, LEGACY_WINDOW)); }
    case Response(t, error) =>
      if t in v.inFlight {
        var ops := v.inFlight[t].outpoints;
        s' := UpdateJournalled(s, Release(v, t), Hits(Entries(v), ops), Judge(error, |ops|, v.daa));
      }
    case BlockValidated(hash, found) =>
      if hash in v.validating && !found {
        var w := v.(validating := v.validating - {hash});
        SamePlaced(v, w);
        s' := SlashJournalled(s, w, hash, false);
      }
    case ChainRemoved(hashes) => s' := RemovalsJournalled(s, v, hashes);
    case _ =>
  }

  lemma {:induction false} RunIsJournalled(s: Disk.Sys, cfg: Config, v: View, actions: seq<Action>) returns (s': Disk.Sys)
    requires Holds(s, v) && Sound(v)
    ensures ComesTo(s, s', Run(cfg, v, actions))
  {
    hide Disk.Reachable, Sound, Act;
    s' := s;
    if actions != [] {
      s' := RunIsJournalled(s, cfg, v, actions[..|actions| - 1]);
      s' := ActIsJournalled(s', cfg, Run(cfg, v, actions[..|actions| - 1]), actions[|actions| - 1]);
    }
  }

  // ---- restarting ----

  lemma FineIsLoadable(entries: seq<Entry>)
    requires Disk.Fine(entries)
    ensures Loadable(entries)
  {
    hide Key, Live;
    forall i | 0 <= i < |entries| && Live(entries[i])
      ensures entries[i].orphanRetries < MAX_ORPHAN_RETRIES
    {
      assert Hopeful(entries[i]);
    }
  }

  /** After any run of changes, writes, failed writes and restarts, even one that lost lines, the
      watcher that starts from what is on disk is sound, and holds the restarted process's book. */
  lemma RestartIsSound(s: Disk.Sys)
    requires Disk.Reachable(s)
    ensures Sound(Boot(Load(s.disk)))
    ensures Holds(Disk.Step(s, Disk.Crash), Boot(Load(s.disk)))
  {
    hide Sound, Loadable, Load, Disk.Runs, Disk.Fine, BlockIndex, Keys;
    var actions :| Disk.Runs(actions, s);
    Disk.RestartIsFine(actions, s);
    FineIsLoadable(Load(s.disk).entries);
    BootSound(Load(s.disk));
    var s' := Disk.Next(s, Disk.Crash);
  }

  /** The watcher across a restart: events, then a write that may stop anywhere, then the process ends;
      what comes up again is sound. */
  lemma SoundAcrossRestart(s: Disk.Sys, cfg: Config, v: View, actions: seq<Action>, write: Disk.Action) returns (s': Disk.Sys)
    requires Holds(s, v) && Sound(v)
    ensures ComesTo(s, s', Run(cfg, v, actions))
    ensures Disk.Enabled(s', write) ==> Sound(Boot(Load(Disk.Step(s', write).disk)))
  {
    hide Disk.Reachable, Sound, Boot, Load, Disk.Step, Disk.Enabled, Run;
    s' := RunIsJournalled(s, cfg, v, actions);
    if Disk.Enabled(s', write) {
      var t := Disk.Next(s', write);
      RestartIsSound(t);
    }
  }
}
