/** The escrow watcher as a state machine: what each event does, and what holds after every run. */
module EscrowMachine {
  import opened EscrowEntry
  import opened EscrowBook
  import opened EscrowLedger
  import opened Wrappers
  import CB = ClaimBatch

  const MAX_IN_FLIGHT: nat := 4
  const RESPONSE_TIMEOUT: nat := 600
  const COMPACT_EVERY: nat := 2_000
  const LEGACY_WINDOW: nat := 36_000
  const BONDED_WINDOW: nat := 792_000
  const CLAIM_FEE: nat := 30_000_000

  // ---- claims in flight ----

  datatype Claim = Claim(outpoints: seq<Outpoint>, submitDaa: nat)

  type InFlight = map<TxId, Claim>

  function OpSet(ops: seq<Outpoint>): set<Outpoint> {
    set o | o in ops
  }

  /** Every outpoint of an outstanding claim. */
  function Held(fl: InFlight): set<Outpoint> {
    set t, o | t in fl && o in fl[t].outpoints :: o
  }

  ghost predicate ClaimOk(t: TxId, c: Claim) {
    t == TxId(c.outpoints) && 0 < |c.outpoints| <= MAX_CLAIM_BATCH && Distinct(c.outpoints)
  }

  ghost predicate Disjoint(a: seq<Outpoint>, b: seq<Outpoint>) {
    forall o :: o in a ==> o !in b
  }

  /** At most four well-formed claims, no outpoint in two of them, and `busy` is exactly their union. */
  ghost predicate InFlightOk(fl: InFlight, busy: set<Outpoint>) {
    && |fl| <= MAX_IN_FLIGHT
    && (forall t :: t in fl ==> ClaimOk(t, fl[t]))
    && (forall t, u :: t in fl && u in fl && t != u ==> Disjoint(fl[t].outpoints, fl[u].outpoints))
    && busy == Held(fl)
  }

  /** Releasing a claim frees exactly its own outpoints. */
  lemma ReleaseKeeps(fl: InFlight, busy: set<Outpoint>, t: TxId)
    requires InFlightOk(fl, busy) && t in fl
    ensures InFlightOk(fl - {t}, busy - OpSet(fl[t].outpoints))
    ensures forall o :: o in fl[t].outpoints ==> o in busy && o !in Held(fl - {t})
  {
    hide ClaimOk, Held, Disjoint;
    var fl' := fl - {t};
    assert fl.Keys == fl'.Keys + {t};
    HeldWithout(fl, t);
  }

  lemma HeldWithout(fl: InFlight, t: TxId)
    requires t in fl && forall u :: u in fl && u != t ==> Disjoint(fl[t].outpoints, fl[u].outpoints)
    ensures Held(fl - {t}) == Held(fl) - OpSet(fl[t].outpoints)
    ensures forall o :: o in fl[t].outpoints ==> o in Held(fl) && o !in Held(fl - {t})
  {
    var fl' := fl - {t};
    forall o
      ensures o in Held(fl') <==> o in Held(fl) - OpSet(fl[t].outpoints)
    {
      if o in Held(fl') {
        var u :| u in fl' && o in fl'[u].outpoints;
        assert u in fl && Disjoint(fl[t].outpoints, fl[u].outpoints);
      } else if o in Held(fl) {
        var u :| u in fl && o in fl[u].outpoints;
        assert u == t || u in fl';
      }
    }
  }

  /** A claim of outpoints none of which is held joins the others. */
  lemma SubmitKeeps(fl: InFlight, busy: set<Outpoint>, ops: seq<Outpoint>, daa: nat)
    requires InFlightOk(fl, busy) && |fl| < MAX_IN_FLIGHT
    requires 0 < |ops| <= MAX_CLAIM_BATCH && Distinct(ops) && forall o :: o in ops ==> o !in busy
    ensures TxId(ops) !in fl
    ensures InFlightOk(fl[TxId(ops) := Claim(ops, daa)], busy + OpSet(ops))
  {
    hide Distinct, Held;
    var t := TxId(ops);
    NewClaim(fl, ops);
    var fl' := fl[t := Claim(ops, daa)];
    assert fl'.Keys == fl.Keys + {t};
    HeldWith(fl, t, Claim(ops, daa));
    forall u | u in fl
      ensures Disjoint(fl[u].outpoints, ops) && Disjoint(ops, fl[u].outpoints)
    {
      HeldHas(fl, u);
    }
  }

  lemma HeldHas(fl: InFlight, t: TxId)
    requires t in fl
    ensures forall o :: o in fl[t].outpoints ==> o in Held(fl)
  {}

  /** A claim of free outpoints has a new id. */
  lemma NewClaim(fl: InFlight, ops: seq<Outpoint>)
    requires ops != [] && (forall t :: t in fl ==> ClaimOk(t, fl[t])) && forall o :: o in ops ==> o !in Held(fl)
    ensures TxId(ops) !in fl
  {
    hide Distinct;
    assert ops[0] in ops && ops[0] !in Held(fl);
  }

  lemma HeldWith(fl: InFlight, t: TxId, c: Claim)
    requires t !in fl
    ensures Held(fl[t := c]) == Held(fl) + OpSet(c.outpoints)
  {
    var fl' := fl[t := c];
    forall o
      ensures o in Held(fl') <==> o in Held(fl) + OpSet(c.outpoints)
    {
      if o in Held(fl) {
        var u :| u in fl && o in fl[u].outpoints;
        assert u in fl';
      } else if o in c.outpoints {
        assert t in fl';
      }
    }
  }

  predicate Expired(c: Claim, daa: nat) {
    daa >= c.submitDaa + RESPONSE_TIMEOUT
  }

  function Waiting(fl: InFlight, daa: nat): InFlight {
    map t | t in fl && !Expired(fl[t], daa) :: fl[t]
  }

  lemma {:induction false} SubsetSize<T>(a: set<T>, b: set<T>)
    requires a <= b
    ensures |a| <= |b|
  {
    if a != {} {
      var x :| x in a;
      SubsetSize(a - {x}, b - {x});
    }
  }

  lemma WaitingKeeps(fl: InFlight, busy: set<Outpoint>, daa: nat)
    requires InFlightOk(fl, busy)
    ensures InFlightOk(Waiting(fl, daa), Held(Waiting(fl, daa)))
    ensures Held(Waiting(fl, daa)) <= busy
  {
    hide ClaimOk, Disjoint, Expired;
    var w := Waiting(fl, daa);
    SubsetSize(w.Keys, fl.Keys);
    assert |w| == |w.Keys| && |fl| == |fl.Keys|;
  }

  // ---- building the claim transaction ----

  datatype ClaimTx = ClaimTx(inputs: seq<Outpoint>, sequence: nat, amountOut: nat)

  datatype Build = Built(tx: ClaimTx) | EmptyBatch | MixedWindows | TooSmall | BadTxid

  function Total(es: seq<Entry>): nat {
    if es == [] then 0 else Total(es[..|es| - 1]) + es[|es| - 1].amount
  }

  predicate IsHex(c: char) {
    '0' <= c <= '9' || 'a' <= c <= 'f' || 'A' <= c <= 'F'
  }

  predicate IsTxid(s: string) {
    |s| == 64 && forall i :: 0 <= i < |s| ==> IsHex(s[i])
  }

  function Outpoints(es: seq<Entry>): (ops: seq<Outpoint>)
    ensures |ops| == |es| && forall k :: 0 <= k < |es| ==> ops[k] == Key(es[k])
  {
    seq(|es|, k requires 0 <= k < |es| => Key(es[k]))
  }

  function BuildClaim(es: seq<Entry>): Build {
    if es == [] then EmptyBatch
    else if exists k :: 0 <= k < |es| && es[k].csvWindow != es[0].csvWindow then MixedWindows
    else if Total(es) <= CLAIM_FEE then TooSmall
    else if exists k :: 0 <= k < |es| && !IsTxid(es[k].txid) then BadTxid
    else Built(ClaimTx(Outpoints(es), es[0].csvWindow, Total(es) - CLAIM_FEE))
  }

  function Pick(entries: seq<Entry>, batch: seq<nat>): (es: seq<Entry>)
    requires forall k :: 0 <= k < |batch| ==> batch[k] < |entries|
    ensures |es| == |batch| && forall k :: 0 <= k < |batch| ==> es[k] == entries[batch[k]]
  {
    seq(|batch|, k requires 0 <= k < |batch| => entries[batch[k]])
  }

  // ---- the state ----

  /** Era gate and the two scripts that pay this miner. */
  datatype Config = Config(gate: nat, legacyScript: string, bondedScript: string)

  datatype View = View(l: Ledger, inFlight: InFlight, busy: set<Outpoint>, daa: nat, tracked: set<Outpoint>,
                       blocks: map<string, seq<nat>>, validating: set<string>, sinceCompact: nat, snapshotDue: bool)

  function Entries(v: View): seq<Entry> {
    v.l.book.entries
  }

  /** A live member of an outstanding claim allows a batch of that size. */
  ghost predicate Fits(entries: seq<Entry>, fl: InFlight) {
    forall t, i :: t in fl && 0 <= i < |entries| ==> FitsIn(entries[i], fl[t])
  }

  predicate FitsIn(e: Entry, c: Claim) {
    Live(e) && Key(e) in c.outpoints ==> |c.outpoints| <= Cap(e)
  }

  /** While no outpoint is entered twice, no orphan counter passes ten unless it was loaded so, nor nine
      while in flight. */
  ghost predicate Counters(l: Ledger, busy: set<Outpoint>) {
    DistinctKeys(l.book.entries) ==>
      forall i :: 0 <= i < |l.book.entries| && i < |l.stories| ==> CountOk(l.book.entries[i], l.stories[i].birth, busy)
  }

  predicate CountOk(e: Entry, birth: Entry, busy: set<Outpoint>) {
    && (e.orphanRetries <= MAX_ORPHAN_RETRIES || e.orphanRetries <= birth.orphanRetries)
    && (Key(e) in busy ==> e.orphanRetries < MAX_ORPHAN_RETRIES)
  }

  ghost predicate Sound(v: View) {
    && LedgerOk(v.l)
    && InFlightOk(v.inFlight, v.busy)
    && IndexOk(Entries(v), v.tracked, v.blocks)
    && Fits(Entries(v), v.inFlight)
    && Counters(v.l, v.busy)
  }

  // ---- updates that are mild ----

  function Update(v: View, at: seq<nat>, f: Verdict): View
    requires Shaped(v.l) && forall k :: 0 <= k < |at| ==> at[k] < |v.l.stories|
  {
    v.(l := UpdateAt(v.l, at, f))
  }

  lemma MildKeeps(v: View, at: seq<nat>, f: Verdict)
    requires Sound(v) && Mild(f) && forall k :: 0 <= k < |at| ==> at[k] < |v.l.stories|
    ensures Sound(Update(v, at, f))
  {
    hide LedgerOk, InFlightOk, IndexOk, UpdateAt, FitsIn, CountOk, Follows, SetsCap, IsSoloOrphan;
    LedgerShaped(v.l);
    UpdateKeepsLedger(v.l, at, f);
    UpdateEvolves(v.l, at, f);
    var l := UpdateAt(v.l, at, f);
    var a, b := Entries(v), l.book.entries;
    IndexFollows(a, b, v.tracked, v.blocks);
    DistinctBack(a, b);
    forall i | 0 <= i < |a|
      ensures forall c: Claim :: FitsIn(a[i], c) ==> FitsIn(b[i], c)
      ensures CountOk(a[i], v.l.stories[i].birth, v.busy) ==> CountOk(b[i], l.stories[i].birth, v.busy)
    {
      UpdateBirths(v.l, at, f, i);
      MildEases(v.l, at, f, i);
      assert Follows(a[i], b[i]);
      EasedKeeps(a[i], b[i], v.l.stories[i].birth, v.busy);
    }
  }

  lemma LedgerShaped(l: Ledger)
    requires LedgerOk(l)
    ensures Shaped(l)
  {}

  lemma EasedKeeps(e: Entry, e': Entry, birth: Entry, busy: set<Outpoint>)
    requires Eased(e, e') && Follows(e, e')
    ensures forall c: Claim :: FitsIn(e, c) ==> FitsIn(e', c)
    ensures CountOk(e, birth, busy) ==> CountOk(e', birth, busy)
  {
    hide Cap;
  }

  lemma DistinctBack(a: seq<Entry>, b: seq<Entry>)
    requires Evolved(a, b)
    ensures DistinctKeys(b) ==> DistinctKeys(a)
  {
    hide Key, Live;
  }

  // ---- events ----

  function Release(v: View, t: TxId): View
    requires t in v.inFlight
  {
    v.(inFlight := v.inFlight - {t}, busy := v.busy - OpSet(v.inFlight[t].outpoints))
  }

  function Accept(): Verdict {
    (e: Entry) => Some(Acceptance)
  }

  function Reject(m: Message, n: nat, daa: nat): Verdict {
    (e: Entry) => Some(Rejection(m, n, daa))
  }

  function Heal(daa: nat): Verdict {
    (e: Entry) => if Healed(e, daa) != e then Some(Forgiveness(daa)) else None
  }

  predicate MeansAccepted(error: Option<Message>) {
    error.None? || error.value.duplicate
  }

  function Judge(error: Option<Message>, n: nat, daa: nat): Verdict {
    if MeansAccepted(error) then Accept() else Reject(error.value, n, daa)
  }

  /** The response to claim `t`: its outpoints are released and the entries first found under them
      are claimed, or bear the rejection. */
  function Respond(v: View, t: TxId, error: Option<Message>): View
    requires Shaped(v.l)
  {
    if t !in v.inFlight then v
    else
      var ops := v.inFlight[t].outpoints;
      Update(Release(v, t), Hits(Entries(v), ops), Judge(error, |ops|, v.daa))
  }

  function ExpireClaims(v: View, daa: nat): View {
    v.(inFlight := Waiting(v.inFlight, daa), busy := Held(Waiting(v.inFlight, daa)))
  }

  function CompactNow(v: View): View
    requires Shaped(v.l)
  {
    if |LiveOnly(Entries(v))| == |Entries(v)| then v
    else
      var l := Compacted(v.l);
      v.(l := l, tracked := Keys(l.book.entries), blocks := BlockIndex(l.book.entries), snapshotDue := true)
  }

  function Tick(v: View): View
    requires Shaped(v.l)
  {
    if v.sinceCompact + 1 >= COMPACT_EVERY then CompactNow(v.(sinceCompact := 0)) else v.(sinceCompact := v.sinceCompact + 1)
  }

  ghost predicate Placed(v: View) {
    Shaped(v.l) && PositionsOk(Entries(v), v.blocks)
  }

  lemma PlacedAt(v: View, h: string)
    requires Placed(v)
    ensures forall k :: 0 <= k < |At(v.blocks, h)| ==> At(v.blocks, h)[k] < |v.l.stories|
  {
    PositionsInRange(Entries(v), v.blocks, h);
  }

  lemma PlacedShape(v: View)
    requires Placed(v)
    ensures Shaped(v.l)
  {}

  lemma SamePlaced(v: View, w: View)
    requires Placed(v) && w.l == v.l && w.blocks == v.blocks
    ensures Placed(w) && Shaped(w.l)
  {}

  lemma UpdatePlaced(v: View, at: seq<nat>, f: Verdict)
    requires Placed(v) && forall k :: 0 <= k < |at| ==> at[k] < |v.l.stories|
    ensures Placed(Update(v, at, f))
  {
    hide Follows, UpdateAt;
    UpdateEvolves(v.l, at, f);
    var a, b := Entries(v), UpdateAt(v.l, at, f).book.entries;
    forall h | h in v.blocks
      ensures h != "" && forall k :: 0 <= k < |v.blocks[h]| ==> PositionOk(b, h, v.blocks[h][k])
    {
      forall k | 0 <= k < |v.blocks[h]|
        ensures PositionOk(b, h, v.blocks[h][k])
      {
        assert PositionOk(a, h, v.blocks[h][k]);
        SameBlock(a[v.blocks[h][k]], b[v.blocks[h][k]]);
      }
    }
  }

  lemma SameBlock(e: Entry, e': Entry)
    requires Follows(e, e')
    ensures e'.blockHash == e.blockHash
  {}

  /** Slash the live entries of one block. */
  ghost function SlashBlock(v: View, h: string, spare: bool): (v': View)
    requires Placed(v)
    ensures Placed(v')
  {
    PlacedAt(v, h);
    UpdatePlaced(v, At(v.blocks, h), SlashIf(spare));
    Update(v, At(v.blocks, h), SlashIf(spare))
  }

  ghost function SlashReds(v: View, reds: seq<string>): (v': View)
    requires Placed(v)
    ensures Placed(v')
  {
    if reds == [] then v else SlashBlock(SlashReds(v, reds[..|reds| - 1]), reds[|reds| - 1], true)
  }

  // tracking

  datatype Spk = Spk(version: nat, script: string)
  datatype Output = Output(amount: nat, spk: Option<Spk>)
  datatype Tx = Tx(inputs: nat, txid: Option<string>, outputs: seq<Output>)
  datatype Verbose = Verbose(hash: string, reds: seq<string>, isChain: bool)
  datatype Block = Block(daa: Option<nat>, verbose: Option<Verbose>, txs: seq<Tx>)

  function Lower(s: string): string {
    seq(|s|, i requires 0 <= i < |s| => if 'A' <= s[i] <= 'Z' then s[i] - 'A' + 'a' else s[i])
  }

  function WindowPaid(cfg: Config, out: Output): Option<nat> {
    if out.spk.None? || out.spk.value.version != 0 then None
    else
      var script := Lower(out.spk.value.script);
      if script == cfg.legacyScript then Some(LEGACY_WINDOW)
      else if script == cfg.bondedScript then Some(BONDED_WINDOW)
      else None
  }

  function TrackEntry(v: View, e: Entry): (v': View)
    requires Shaped(v.l)
    ensures Shaped(v'.l)
  {
    if Key(e) in v.tracked then v
    else v.(l := Enter(v.l, e), tracked := v.tracked + {Key(e)}, blocks := Listing(v.blocks, e.blockHash, |Entries(v)|))
  }

  /** The outputs of a coinbase that pay an escrow script, each at most once. */
  function TrackOutputs(cfg: Config, v: View, txid: string, hash: string, daa: nat, outs: seq<Output>): (v': View)
    requires Shaped(v.l)
    ensures Shaped(v'.l)
  {
    if outs == [] then v
    else
      var k := |outs| - 1;
      var w := TrackOutputs(cfg, v, txid, hash, daa, outs[..k]);
      match WindowPaid(cfg, outs[k])
      case None => w
      case Some(window) => TrackEntry(w, Fresh(txid, hash, daa, outs[k].amount, k, false, window))
  }

  function Coinbase(txs: seq<Tx>): (r: Option<Tx>) {
    if txs == [] then None else if txs[0].inputs == 0 then Some(txs[0]) else Coinbase(txs[1..])
  }

  function TrackBlock(cfg: Config, v: View, block: Block, daa: nat): (v': View)
    requires Shaped(v.l)
    ensures Shaped(v'.l)
  {
    var cb := Coinbase(block.txs);
    if block.verbose.None? || !block.verbose.value.isChain || cb.None? || cb.value.txid.None? || cb.value.txid.value == "" then v
    else TrackOutputs(cfg, v, cb.value.txid.value, block.verbose.value.hash, daa, cb.value.outputs)
  }

  function TrackInference(v: View, txid: string, daa: nat, amount: nat): View
    requires Shaped(v.l)
  {
    if amount == 0 then v else TrackEntry(v, Fresh(txid, "", daa, amount, 1, true, LEGACY_WINDOW))
  }

  // claiming

  datatype Found = Found(v: View, tx: Option<ClaimTx>)

  function CsvWindow(cfg: Config, daa: nat): nat {
    if daa >= cfg.gate then BONDED_WINDOW else LEGACY_WINDOW
  }

  function HealAll(v: View, daa: nat): (v': View)
    requires Shaped(v.l)
    ensures Shaped(v'.l)
  {
    Update(v, CB.Upto(|Entries(v)|), Heal(daa))
  }

  function Context(cfg: Config, v: View, daa: nat): CB.Ctx {
    CB.Ctx(Entries(v), daa, CsvWindow(cfg, daa), v.busy)
  }

  function Submit(v: View, ops: seq<Outpoint>, daa: nat): View {
    v.(inFlight := v.inFlight[TxId(ops) := Claim(ops, daa)], busy := v.busy + OpSet(ops))
  }

  ghost function FindClaim(cfg: Config, v: View, daa: nat): Found
    requires Shaped(v.l)
  {
    if |v.inFlight| >= MAX_IN_FLIGHT || v.validating != {} then Found(v, None)
    else
      var w := HealAll(v, daa);
      var batch := CB.Select(Context(cfg, w, daa));
      CB.SelectMembers(Context(cfg, w, daa));
      match BuildClaim(Pick(Entries(w), batch))
      case Built(tx) => Found(Submit(w, tx.inputs, daa), Some(tx))
      case _ => Found(w, None)
  }

  /** One block: time out claims, compact now and then, slash reds, track, claim. */
  ghost function SeeBlock(cfg: Config, v: View, block: Block): Found
    requires Shaped(v.l) && PositionsOk(Entries(v), v.blocks)
  {
    if block.daa.None? then Found(v, None)
    else
      var daa := block.daa.value;
      var v1 := ExpireClaims(v.(daa := daa), daa);
      TickPlaced(v1);
      var v2 := Tick(v1);
      var v3 := SlashReds(v2, if block.verbose.Some? then block.verbose.value.reds else []);
      FindClaim(cfg, TrackBlock(cfg, v3, block, daa), daa)
  }

  lemma TickPlaced(v: View)
    requires Placed(v)
    ensures Placed(Tick(v))
  {
    hide BlockIndex, LiveOnly, AllListed, PositionsOk;
    BlockIndexOk(LiveOnly(Entries(v)));
  }

  // validation and reorganisations

  function LiveHashes(entries: seq<Entry>): set<string> {
    set i | 0 <= i < |entries| && Live(entries[i]) && entries[i].blockHash != "" :: entries[i].blockHash
  }

  ghost function Validated(v: View, h: string, found: bool): View
    requires Placed(v)
  {
    if h !in v.validating then v
    else
      var w := v.(validating := v.validating - {h});
      if found then w else SlashBlock(w, h, false)
  }

  /** Outpoints of the live entries among the positions. */
  function LiveKeys(entries: seq<Entry>, at: seq<nat>): set<Outpoint>
    requires forall k :: 0 <= k < |at| ==> at[k] < |entries|
  {
    set k | 0 <= k < |at| && Live(entries[at[k]]) :: Key(entries[at[k]])
  }

  ghost function RemoveBlock(v: View, h: string): (v': View)
    requires Placed(v)
    ensures Placed(v')
  {
    PlacedAt(v, h);
    var w := SlashBlock(v, h, false);
    w.(blocks := v.blocks - {h}, tracked := v.tracked - LiveKeys(Entries(v), At(v.blocks, h)))
  }

  ghost function RemoveBlocks(v: View, hs: seq<string>): (v': View)
    requires Placed(v)
    ensures Placed(v')
  {
    if hs == [] then v else RemoveBlock(RemoveBlocks(v, hs[..|hs| - 1]), hs[|hs| - 1])
  }
}
