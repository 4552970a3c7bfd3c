/** Runs of real events after which one outpoint has a done and a live entry, and what responses then
    do. */
module EscrowTwins {
  import opened EscrowEntry
  import opened EscrowBook
  import opened EscrowLedger
  import opened EscrowMachine
  import opened EscrowRuns
  import opened Wrappers
  import CB = ClaimBatch

  /** An output that pays the legacy script, worth claiming alone. */
  datatype Mint = Mint(txid: string, hash: string, daa: nat, amount: nat)

  ghost predicate Plausible(cfg: Config, m: Mint) {
    IsTxid(m.txid) && m.hash != "" && m.amount > CLAIM_FEE && Lower(cfg.legacyScript) == cfg.legacyScript
  }

  function Minted(m: Mint): Entry {
    Fresh(m.txid, m.hash, m.daa, m.amount, 0, false, LEGACY_WINDOW)
  }

  /** The chain block whose coinbase pays it. */
  function Minting(cfg: Config, m: Mint): Block {
    Block(Some(m.daa), Some(Verbose(m.hash, [], true)), [Tx(0, Some(m.txid), [Output(m.amount, Some(Spk(0, cfg.legacyScript)))])])
  }

  /** A later block with nothing in it, past the output's window and past the gate: the output's window
      is no longer the one coinbases mint, so it is claimed alone. */
  function Quiet(daa: nat): Block {
    Block(Some(daa), None, [])
  }

  predicate Late(cfg: Config, m: Mint, daa: nat) {
    daa >= cfg.gate && daa >= m.daa + LEGACY_WINDOW + CB.MATURITY_MARGIN
  }

  // ---- blocks that change little ----

  lemma {:induction false} UpdateNothing(l: Ledger, at: seq<nat>, f: Verdict)
    requires Shaped(l) && forall k :: 0 <= k < |at| ==> at[k] < |l.stories| && f(l.book.entries[at[k]]).None?
    ensures UpdateAt(l, at, f) == l
  {
    if at != [] { UpdateNothing(l, at[..|at| - 1], f); }
  }

  /** No entry has a verdict to forgive. */
  ghost predicate Calm(entries: seq<Entry>, daa: nat) {
    forall i :: 0 <= i < |entries| ==> Healed(entries[i], daa) == entries[i]
  }

  lemma HealNothing(v: View, daa: nat)
    requires Shaped(v.l) && Calm(Entries(v), daa)
    ensures HealAll(v, daa) == v
  {
    hide Healed, UpdateAt;
    UpdateNothing(v.l, CB.Upto(|Entries(v)|), Heal(daa));
  }

  lemma FindNothing(cfg: Config, v: View, daa: nat)
    requires Shaped(v.l) && Calm(Entries(v), daa)
    requires forall i :: 0 <= i < |Entries(v)| ==> !CB.Eligible(Context(cfg, v, daa), Entries(v)[i])
    ensures FindClaim(cfg, v, daa).v == v
  {
    hide HealAll, Calm, CB.Select, CB.Eligible;
    HealNothing(v, daa);
    CB.NoneEligible(Context(cfg, v, daa), |Entries(v)|);
    CB.SelectEmptyIff(Context(cfg, v, daa));
  }

  /** A watcher with nothing in flight and nothing to validate. */
  ghost predicate Idle(v: View, n: nat) {
    Sound(v) && v.inFlight == map[] && v.busy == {} && v.validating == {} && v.sinceCompact == n
  }

  /** Up to tracking, a block with no reds changes only the clock. */
  lemma BlockBegins(v: View, n: nat, daa: nat)
    requires Idle(v, n) && n + 1 < COMPACT_EVERY
    ensures Tick(ExpireClaims(v.(daa := daa), daa)) == v.(daa := daa, sinceCompact := n + 1)
  {
    hide Sound;
    SoundPlaced(v);
    assert Held(map[]) == {};
  }

  lemma NoReds(v: View)
    requires Placed(v)
    ensures SlashReds(v, []) == v
  {}

  lemma ActSound(cfg: Config, v: View, a: Action)
    requires Sound(v)
    ensures Sound(Act(cfg, v, a))
  {}

  lemma NotMature(cfg: Config, v: View, m: Mint)
    requires forall i :: 0 <= i < |Entries(v)| ==> Entries(v)[i].confirmDaa == m.daa && Entries(v)[i].csvWindow == LEGACY_WINDOW
    ensures forall i :: 0 <= i < |Entries(v)| ==> !CB.Eligible(Context(cfg, v, m.daa), Entries(v)[i])
  {}

  lemma TracksMint(cfg: Config, v: View, m: Mint)
    requires Shaped(v.l) && Plausible(cfg, m)
    ensures TrackBlock(cfg, v, Minting(cfg, m), m.daa) == TrackEntry(v, Minted(m))
  {
    hide TrackEntry, Lower;
    var outs := Minting(cfg, m).txs[0].outputs;
    assert outs[..0] == [];
    assert TrackOutputs(cfg, v, m.txid, m.hash, m.daa, outs[..0]) == v;
    assert WindowPaid(cfg, outs[0]) == Some(LEGACY_WINDOW);
    NotEmpty(m.txid);
  }

  lemma NotEmpty(txid: string)
    ensures IsTxid(txid) ==> txid != ""
  {}

  /** Entries of this output alone, none with a repair verdict. */
  ghost predicate OfMint(entries: seq<Entry>, m: Mint) {
    forall i :: 0 <= i < |entries| ==>
      entries[i].confirmDaa == m.daa && entries[i].csvWindow == LEGACY_WINDOW && entries[i].batchCap == 0 && !entries[i].orphanSlashed
  }

  lemma CleanIsCalm(entries: seq<Entry>, m: Mint, daa: nat)
    requires OfMint(entries, m)
    ensures Calm(entries, daa)
  {}

  /** Seeing the minting block tracks the output, if it is not tracked. */
  lemma MintSeen(cfg: Config, v: View, m: Mint, n: nat)
    requires Idle(v, n) && n + 1 < COMPACT_EVERY && Plausible(cfg, m) && OfMint(Entries(v), m)
    requires Key(Minted(m)) !in v.tracked
    ensures var v' := Act(cfg, v, BlockSeen(Minting(cfg, m)));
      && Idle(v', n + 1) && Entries(v') == Entries(v) + [Minted(m)]
      && v'.tracked == v.tracked + {Key(Minted(m))} && v'.blocks == Listing(v.blocks, m.hash, |Entries(v)|)
  {
    hide Sound, Tick, ExpireClaims, TrackBlock, FindClaim, SlashReds, Key, Plausible, Listing, OfMint;
    var b := Minting(cfg, m);
    ActSound(cfg, v, BlockSeen(b));
    BlockBegins(v, n, m.daa);
    var v1 := v.(daa := m.daa, sinceCompact := n + 1);
    SoundPlaced(v);
    assert Placed(v1) && Shaped(v1.l) by { SamePlaced(v, v1); }
    NoReds(v1);
    TracksMint(cfg, v1, m);
    var v2 := TrackEntry(v1, Minted(m));
    assert OfMint(Entries(v2), m) by { GrowsOfMint(Entries(v), m); }
    assert Calm(Entries(v2), m.daa) by { CleanIsCalm(Entries(v2), m, m.daa); }
    assert forall i :: 0 <= i < |Entries(v2)| ==> Entries(v2)[i].confirmDaa == m.daa && Entries(v2)[i].csvWindow == LEGACY_WINDOW by {
      OfMintFields(Entries(v2), m);
    }
    NotMature(cfg, v2, m);
    FindNothing(cfg, v2, m.daa);
  }

  lemma GrowsOfMint(entries: seq<Entry>, m: Mint)
    requires OfMint(entries, m)
    ensures OfMint(entries + [Minted(m)], m)
  {}

  lemma OfMintFields(entries: seq<Entry>, m: Mint)
    requires OfMint(entries, m)
    ensures forall i :: 0 <= i < |entries| ==> entries[i].confirmDaa == m.daa && entries[i].csvWindow == LEGACY_WINDOW
  {}

  // ---- tracked, removed, tracked again ----

  /** A done entry and, after it, the live one of the same outpoint. */
  ghost predicate Twins(v: View, m: Mint, dead: Entry, n: nat) {
    && Idle(v, n) && Entries(v) == [dead, Minted(m)]
    && Key(dead) == Key(Minted(m)) && !Live(dead)
  }

  function TwinActions(cfg: Config, m: Mint): seq<Action> {
    [BlockSeen(Minting(cfg, m)), ChainRemoved([m.hash]), BlockSeen(Minting(cfg, m))]
  }

  lemma RunNext(cfg: Config, v: View, actions: seq<Action>, a: Action)
    requires Sound(v)
    ensures Run(cfg, v, actions + [a]) == Act(cfg, Run(cfg, v, actions), a)
  {
    hide Sound, Act;
    assert (actions + [a])[..|actions|] == actions;
  }

  lemma RunNothing(cfg: Config, v: View)
    requires Sound(v)
    ensures Run(cfg, v, []) == v
  {}

  lemma StartsIdle()
    ensures Loadable([]) && Idle(Boot(Snapshot([], 0)), 0)
    ensures Boot(Snapshot([], 0)).tracked == {} && Boot(Snapshot([], 0)).blocks == map[]
  {
    BootSound(Snapshot([], 0));
  }

  /** Removing the one block of a watcher with one live entry. */
  lemma RemovedOnce(v: View, m: Mint, n: nat)
    requires Idle(v, n) && Entries(v) == [Minted(m)] && m.hash != "" && v.blocks == map[m.hash := [0]]
    ensures Placed(v)
    ensures var w := RemoveBlock(v, m.hash);
      Idle(w, n) && Entries(w) == [Minted(m).(slashed := true)] && Key(Minted(m)) !in w.tracked && w.blocks == map[]
  {
    hide Sound, Key, Placed;
    SoundPlaced(v);
    RemoveBlockKeeps(v, m.hash);
    var e := Minted(m);
    PlacedShape(v);
    assert [0][..0] == [];
    assert UpdateAt(v.l, [], SlashIf(false)) == v.l;
    assert UpdateAt(v.l, [0], SlashIf(false)) == UpdateOne(v.l, 0, SlashIf(false));
    assert LiveKeys([e], [0]) == {Key(e)} by { assert Key([e][[0][0]]) in LiveKeys([e], [0]); }
  }

  lemma ActRemoves(cfg: Config, v: View, h: string)
    requires Sound(v)
    ensures Placed(v) && Act(cfg, v, ChainRemoved([h])) == RemoveBlock(v, h)
  {
    hide Sound, Placed, RemoveBlock;
    SoundPlaced(v);
    assert [h][..0] == [];
    assert RemoveBlocks(v, []) == v;
  }

  lemma FirstMint(cfg: Config, m: Mint)
    requires Plausible(cfg, m)
    ensures Sound(Boot(Snapshot([], 0)))
    ensures var v := Act(cfg, Boot(Snapshot([], 0)), BlockSeen(Minting(cfg, m)));
      Idle(v, 1) && Entries(v) == [Minted(m)] && v.blocks == map[m.hash := [0]] && m.hash != ""
  {
    hide Sound, Act, Plausible, Minting, Key;
    StartsIdle();
    HasHash(cfg, m);
    ListingFirst(m.hash);
    var v0 := Boot(Snapshot([], 0));
    assert Entries(v0) == [] && Entries(v0) + [Minted(m)] == [Minted(m)];
    MintSeen(cfg, v0, m, 0);
  }

  lemma ListingFirst(h: string)
    requires h != ""
    ensures Listing(map[], h, 0) == map[h := [0]]
  {
    assert At(map[], h) + [0] == [0];
  }

  lemma SecondMint(cfg: Config, v: View, m: Mint)
    requires Plausible(cfg, m) && Idle(v, 1) && Entries(v) == [Minted(m)] && v.blocks == map[m.hash := [0]] && m.hash != ""
    ensures Sound(Act(cfg, v, ChainRemoved([m.hash])))
    ensures Twins(Act(cfg, Act(cfg, v, ChainRemoved([m.hash])), BlockSeen(Minting(cfg, m))), m, Minted(m).(slashed := true), 2)
  {
    hide Sound, Act, Plausible, Minting, Key;
    RemovedOnce(v, m, 1);
    ActRemoves(cfg, v, m.hash);
    var w := Act(cfg, v, ChainRemoved([m.hash]));
    assert OfMint(Entries(w), m);
    MintSeen(cfg, w, m, 1);
    SlashedKey(Minted(m));
  }

  /** From an empty watcher: the block seen, removed, seen again. */
  lemma TwinsArise(cfg: Config, m: Mint)
    requires Plausible(cfg, m)
    ensures Sound(Boot(Snapshot([], 0)))
    ensures Twins(Run(cfg, Boot(Snapshot([], 0)), TwinActions(cfg, m)), m, Minted(m).(slashed := true), 2)
  {
    hide Sound, Act, Run, Plausible, Minting, Minted, Twins, Boot, Idle;
    FirstMint(cfg, m);
    var v0, a := Boot(Snapshot([], 0)), TwinActions(cfg, m);
    SecondMint(cfg, Act(cfg, v0, a[0]), m);
    RunNothing(cfg, v0);
    RunNext(cfg, v0, [], a[0]);
    RunNext(cfg, v0, [a[0]], a[1]);
    RunNext(cfg, v0, [a[0], a[1]], a[2]);
    assert [] + [a[0]] == [a[0]] && [a[0]] + [a[1]] == [a[0], a[1]] && [a[0], a[1]] + [a[2]] == a;
  }

  lemma HasHash(cfg: Config, m: Mint)
    requires Plausible(cfg, m)
    ensures m.hash != ""
  {}

  lemma SlashedKey(e: Entry)
    ensures Key(e.(slashed := true)) == Key(e)
  {}

  // ---- the live twin is claimed ----

  lemma SelectsLive(cfg: Config, v: View, m: Mint, dead: Entry, n: nat, daa: nat)
    requires Twins(v, m, dead, n) && Late(cfg, m, daa)
    ensures CB.Select(Context(cfg, v, daa)) == [1]
  {
    hide CB.Select, Sound, Key, Distinct;
    var c := Context(cfg, v, daa);
    CB.SelectMembers(c);
    CB.SelectEmptyIff(c);
    assert CB.Eligible(c, c.entries[1]) && !CB.Eligible(c, c.entries[0]);
    var batch := CB.Select(c);
    forall k | 0 <= k < |batch|
      ensures batch[k] == 1
    {
      assert CB.Eligible(c, c.entries[batch[k]]);
    }
    if |batch| >= 2 { SameTwice(batch); }
  }

  lemma SameTwice(batch: seq<nat>)
    requires |batch| >= 2 && batch[0] == batch[1]
    ensures !Distinct(batch)
  {}

  lemma BuildsAlone(cfg: Config, m: Mint)
    requires Plausible(cfg, m)
    ensures BuildClaim([Minted(m)]) == Built(ClaimTx([Key(Minted(m))], LEGACY_WINDOW, m.amount - CLAIM_FEE))
  {
    var es := [Minted(m)];
    assert es[..0] == [];
    assert Total([]) == 0;
    assert Outpoints(es) == [Key(Minted(m))];
  }

  lemma QuietBlock(cfg: Config, v: View, daa: nat)
    requires Shaped(v.l)
    ensures TrackBlock(cfg, v, Quiet(daa), daa) == v
  {}

  /** A late quiet block claims the live twin alone. */
  lemma ClaimsTwin(cfg: Config, v: View, m: Mint, dead: Entry, n: nat, daa: nat)
    requires Twins(v, m, dead, n) && n + 1 < COMPACT_EVERY && Plausible(cfg, m) && Late(cfg, m, daa) && Healed(dead, daa) == dead
    ensures Sound(v)
    ensures Act(cfg, v, BlockSeen(Quiet(daa))) == Submit(v.(daa := daa, sinceCompact := n + 1), [Key(Minted(m))], daa)
  {
    hide Sound, Tick, ExpireClaims, TrackBlock, SlashReds, Key, Plausible, HealAll, CB.Select, BuildClaim, Late, Live, Healed;
    BlockBegins(v, n, daa);
    var v1 := v.(daa := daa, sinceCompact := n + 1);
    SoundPlaced(v);
    assert Placed(v1) && Shaped(v1.l) by { SamePlaced(v, v1); }
    NoReds(v1);
    QuietBlock(cfg, v1, daa);
    assert Calm(Entries(v1), daa) by { MintCalm(m, daa); }
    HealNothing(v1, daa);
    assert Context(cfg, v1, daa) == Context(cfg, v, daa);
    SelectsLive(cfg, v, m, dead, n, daa);
    BuildsAlone(cfg, m);
    assert Pick(Entries(v1), [1]) == [Minted(m)];
  }

  lemma MintCalm(m: Mint, daa: nat)
    ensures Healed(Minted(m), daa) == Minted(m)
  {}

  /** The response to that claim reaches the done twin; the live one stays as it was. */
  lemma ResponseReachesDead(cfg: Config, v: View, m: Mint, dead: Entry, n: nat, daa: nat, error: Option<Message>)
    requires Twins(v, m, dead, n) && n + 1 < COMPACT_EVERY && Plausible(cfg, m) && Late(cfg, m, daa) && Healed(dead, daa) == dead
    ensures Sound(v)
    ensures var v' := Act(cfg, Act(cfg, v, BlockSeen(Quiet(daa))), Response(TxId([Key(Minted(m))]), error));
      && Idle(v', n + 1) && Entries(v') == [Judged(dead, Judge(error, 1, daa)), Minted(m)]
  {
    hide Act, Sound, Respond, Key, Plausible, Late, Live, Healed, Judged, Judge;
    ClaimsTwin(cfg, v, m, dead, n, daa);
    var k := Key(Minted(m));
    var w := Act(cfg, v, BlockSeen(Quiet(daa)));
    assert w == Submit(v.(daa := daa, sinceCompact := n + 1), [k], daa);
    var t := TxId([k]);
    assert w.inFlight == map[t := Claim([k], daa)];
    ResponseReachesFirst(w, t, error, 0);
    ResponseReachesFirst(w, t, error, 1);
    ResponseActs(cfg, w, t, error);
    assert w.busy == {k} by { OneBusy(k); }
    OneReleased(w, t, k, error);
  }

  lemma ResponseActs(cfg: Config, v: View, t: TxId, error: Option<Message>)
    requires Sound(v)
    ensures Shaped(v.l) && Act(cfg, v, Response(t, error)) == Respond(v, t, error) && Sound(Act(cfg, v, Response(t, error)))
  {
    SoundPlaced(v);
  }

  lemma OneBusy(k: Outpoint)
    ensures {} + OpSet([k]) == {k}
  {}

  lemma OneReleased(v: View, t: TxId, k: Outpoint, error: Option<Message>)
    requires Shaped(v.l) && t in v.inFlight && v.inFlight.Keys == {t} && v.inFlight[t].outpoints == [k] && v.busy == {k}
    ensures var v' := Respond(v, t, error);
      && v'.inFlight == map[] && v'.busy == {} && v'.validating == v.validating && v'.sinceCompact == v.sinceCompact
  {
    hide UpdateAt, Hits, Judge;
    OneBusy(k);
  }

  // ---- what the runs show ----

  /** Seen, removed, seen again, claimed late, answered. */
  function ClaimedTwin(cfg: Config, m: Mint, daa: nat, error: Option<Message>): seq<Action> {
    TwinActions(cfg, m) + [BlockSeen(Quiet(daa))] + [Response(TxId([Key(Minted(m))]), error)]
  }

  lemma TwinRun(cfg: Config, m: Mint, daa: nat, error: Option<Message>)
    requires Plausible(cfg, m) && Late(cfg, m, daa)
    ensures Sound(Boot(Snapshot([], 0)))
    ensures Entries(Run(cfg, Boot(Snapshot([], 0)), ClaimedTwin(cfg, m, daa, error))) ==
      [Judged(Minted(m).(slashed := true), Judge(error, 1, daa)), Minted(m)]
  {
    hide Sound, Act, Run, Plausible, Minted, Twins, Boot, Idle, Late, Quiet, TwinActions, Judged, Judge, Key;
    TwinsArise(cfg, m);
    var v0, a := Boot(Snapshot([], 0)), TwinActions(cfg, m);
    SlashedCalm(m, daa);
    ResponseReachesDead(cfg, Run(cfg, v0, a), m, Minted(m).(slashed := true), 2, daa, error);
    RunNext(cfg, v0, a, BlockSeen(Quiet(daa)));
    RunNext(cfg, v0, a + [BlockSeen(Quiet(daa))], Response(TxId([Key(Minted(m))]), error));
  }

  lemma SlashedCalm(m: Mint, daa: nat)
    ensures Healed(Minted(m).(slashed := true), daa) == Minted(m).(slashed := true)
  {}

  /** For every such output there is a run from an empty watcher after which the accepted claim of the
      live entry has marked the done one, and the live one waits to be claimed again. */
  lemma AcceptanceMissesRetracked(cfg: Config, m: Mint, daa: nat)
    requires Plausible(cfg, m) && Late(cfg, m, daa)
    ensures Sound(Boot(Snapshot([], 0)))
    ensures Entries(Run(cfg, Boot(Snapshot([], 0)), ClaimedTwin(cfg, m, daa, None))) ==
      [Minted(m).(slashed := true, claimed := true), Minted(m)]
  {
    hide Sound, Run, Plausible, Late, Boot;
    TwinRun(cfg, m, daa, None);
  }

  // ---- solo orphan rejections that reach the done twin ----

  function Orphaned(cfg: Config, m: Mint, daa: nat, error: Message, n: nat): seq<Action> {
    if n == 0 then TwinActions(cfg, m)
    else Orphaned(cfg, m, daa, error, n - 1) + [BlockSeen(Quiet(daa))] + [Response(TxId([Key(Minted(m))]), Some(error))]
  }

  /** The done twin after `n` of them. */
  ghost predicate DeadAfter(m: Mint, dead: Entry, daa: nat, n: nat) {
    && Key(dead) == Key(Minted(m)) && dead.slashed && dead.orphanRetries == n
    && dead.batchCap == 0
    && (dead.orphanSlashed ==> dead.retryAfter == Some(daa + ORPHAN_COOLDOWN))
  }

  lemma DeadCalm(m: Mint, dead: Entry, daa: nat, n: nat)
    requires DeadAfter(m, dead, daa, n)
    ensures Healed(dead, daa) == dead && !Live(dead)
  {}

  lemma OneMore(m: Mint, dead: Entry, daa: nat, n: nat, error: Message)
    requires DeadAfter(m, dead, daa, n) && error.orphan && !error.duplicate
    ensures DeadAfter(m, Judged(dead, Judge(Some(error), 1, daa)), daa, n + 1)
  {
    hide UnknownCooldown, HalvedCap;
  }

  lemma {:induction false} OrphanRounds(cfg: Config, m: Mint, daa: nat, error: Message, n: nat) returns (dead: Entry)
    requires Plausible(cfg, m) && Late(cfg, m, daa) && error.orphan && !error.duplicate && n + 3 < COMPACT_EVERY
    ensures Sound(Boot(Snapshot([], 0)))
    ensures Twins(Run(cfg, Boot(Snapshot([], 0)), Orphaned(cfg, m, daa, error, n)), m, dead, n + 2) && DeadAfter(m, dead, daa, n)
  {
    hide Sound, Act, Run, Plausible, Minted, Boot, Late, Quiet, TwinActions, Judged, Judge, Key, DeadAfter, Live;
    TwinsArise(cfg, m);
    var v0 := Boot(Snapshot([], 0));
    if n == 0 {
      dead := Minted(m).(slashed := true);
      FirstDead(m, daa);
    } else {
      var before := OrphanRounds(cfg, m, daa, error, n - 1);
      var a := Orphaned(cfg, m, daa, error, n - 1);
      DeadCalm(m, before, daa, n - 1);
      OneMore(m, before, daa, n - 1, error);
      ResponseReachesDead(cfg, Run(cfg, v0, a), m, before, n + 1, daa, Some(error));
      RunNext(cfg, v0, a, BlockSeen(Quiet(daa)));
      RunNext(cfg, v0, a + [BlockSeen(Quiet(daa))], Response(TxId([Key(Minted(m))]), Some(error)));
      dead := Judged(before, Judge(Some(error), 1, daa));
      DeadCalm(m, dead, daa, n);
      DeadKey(m, dead, daa, n);
    }
  }

  lemma FirstDead(m: Mint, daa: nat)
    ensures DeadAfter(m, Minted(m).(slashed := true), daa, 0) && !Live(Minted(m).(slashed := true))
  {}

  lemma DeadKey(m: Mint, dead: Entry, daa: nat, n: nat)
    requires DeadAfter(m, dead, daa, n)
    ensures Key(dead) == Key(Minted(m))
  {}

  /** For every such output there is a run from an empty watcher in which eleven solo orphan rejections
      take a counter past ten, while the live entry they were about is as fresh as on the first day. */
  lemma CounterPastTen(cfg: Config, m: Mint, daa: nat, error: Message)
    requires Plausible(cfg, m) && Late(cfg, m, daa) && error.orphan && !error.duplicate
    ensures Sound(Boot(Snapshot([], 0)))
    ensures var es := Entries(Run(cfg, Boot(Snapshot([], 0)), Orphaned(cfg, m, daa, error, 11)));
      |es| == 2 && es[0].orphanRetries == 11 && es[1] == Minted(m)
  {
    hide Sound, Run, Plausible, Late, Boot, Orphaned;
    var dead := OrphanRounds(cfg, m, daa, error, 11);
  }
}
