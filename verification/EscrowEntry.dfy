/** One tracked escrow output: how it reacts to claim responses, forgiveness and slashing, and what
    no history of those can do to it. */
module EscrowEntry {
  import opened Wrappers
  import Pow

  const MAX_CLAIM_BATCH: nat := 87
  const CAP_EXPIRY_DAA: nat := 36_000
  const MAX_ORPHAN_RETRIES: nat := 10
  const ORPHAN_COOLDOWN: nat := 100
  const SEQ_LOCK_COOLDOWN: nat := 20
  const UNKNOWN_BASE_COOLDOWN: nat := 100
  const UNKNOWN_MAX_COOLDOWN: nat := 50_000

  datatype Outpoint = Outpoint(txid: string, index: nat)

  datatype Entry = Entry(txid: string, blockHash: string, confirmDaa: nat, amount: nat, outputIndex: nat,
                         claimed: bool, slashed: bool, orphanSlashed: bool, orphanRetries: nat,
                         retryAfter: Option<nat>, submitRetries: nat, batchCap: nat, capSetDaa: nat,
                         isInference: bool, csvWindow: nat)

  function Key(e: Entry): Outpoint {
    Outpoint(e.txid, e.outputIndex)
  }

  predicate Live(e: Entry) {
    !e.claimed && !e.slashed
  }

  /** The largest batch the entry may join. */
  function Cap(e: Entry): (cap: nat)
    ensures 1 <= cap <= MAX_CLAIM_BATCH
  {
    if e.batchCap == 0 || e.batchCap > MAX_CLAIM_BATCH then MAX_CLAIM_BATCH else e.batchCap
  }

  function Fresh(txid: string, blockHash: string, confirmDaa: nat, amount: nat, outputIndex: nat, isInference: bool, csvWindow: nat): Entry {
    Entry(txid, blockHash, confirmDaa, amount, outputIndex, false, false, false, 0, None, 0, 0, 0, isInference, csvWindow)
  }

  // ---- responses ----

  /** A claim transaction is identified by the outputs it spends. */
  datatype TxId = TxId(inputs: seq<Outpoint>)

  /** What the substring tests find in a rejection text. */
  datatype Message = Message(duplicate: bool, orphan: bool, seqLock: bool, burned: bool, listed: set<Outpoint>,
                             mentions: set<TxId>)

  function HalvedCap(n: nat): (cap: nat)
    ensures cap >= 1
  {
    if n / 2 < 1 then 1 else if n / 2 > 255 then 255 else n / 2
  }

  function Capped(e: Entry, n: nat, daa: nat): Entry {
    e.(batchCap := HalvedCap(n), capSetDaa := daa)
  }

  function UnknownCooldown(retries: nat): nat {
    var c := UNKNOWN_BASE_COOLDOWN * Pow.Pow2(if retries < 9 then retries else 9);
    if c < UNKNOWN_MAX_COOLDOWN then c else UNKNOWN_MAX_COOLDOWN
  }

  /** A member of a rejected claim of `n` outputs, after the rejection. */
  function Rejected(e: Entry, m: Message, n: nat, daa: nat): Entry {
    if m.orphan then
      if n > 1 then Capped(e, n, daa)
      else if e.orphanRetries + 1 >= MAX_ORPHAN_RETRIES then
        e.(orphanRetries := e.orphanRetries + 1, orphanSlashed := false, slashed := true)
      else
        e.(orphanRetries := e.orphanRetries + 1, orphanSlashed := true, retryAfter := Some(daa + ORPHAN_COOLDOWN))
    else if m.seqLock then e.(retryAfter := Some(daa + SEQ_LOCK_COOLDOWN))
    else if m.burned then
      if m.listed != {} then (if Key(e) in m.listed then e.(slashed := true) else e)
      else if n > 1 then Capped(e, n, daa)
      else e.(slashed := true)
    else
      var e' := if n > 1 then Capped(e, n, daa) else e;
      var r := if e.submitRetries < 255 then e.submitRetries + 1 else 255;
      e'.(submitRetries := r, retryAfter := Some(daa + UnknownCooldown(r)))
  }

  /** Forgiveness of stale verdicts: an unconfirmed cap, an orphan flag past its holdoff. */
  function Healed(e: Entry, daa: nat): Entry {
    var e' := if e.batchCap != 0 && daa >= e.capSetDaa + CAP_EXPIRY_DAA then e.(batchCap := 0) else e;
    if e'.orphanSlashed && HoldoffOver(e', daa) then e'.(orphanSlashed := false) else e'
  }

  predicate HoldoffOver(e: Entry, daa: nat) {
    e.retryAfter.None? ||
    daa >= e.retryAfter.value + CAP_EXPIRY_DAA * Pow.Pow2(if e.orphanRetries < 10 then e.orphanRetries else 10)
  }

  // ---- histories ----

  /** Everything that changes an entry. */
  datatype Cause = Rejection(m: Message, n: nat, daa: nat) | Forgiveness(daa: nat) | Acceptance | Exclusion

  function After(e: Entry, c: Cause): Entry {
    match c
    case Rejection(m, n, daa) => Rejected(e, m, n, daa)
    case Forgiveness(daa) => Healed(e, daa)
    case Acceptance => e.(claimed := true)
    case Exclusion => e.(slashed := true)
  }

  function AfterAll(e: Entry, cs: seq<Cause>): Entry {
    if cs == [] then e else After(AfterAll(e, cs[..|cs| - 1]), cs[|cs| - 1])
  }

  predicate IsSoloOrphan(c: Cause) {
    c.Rejection? && c.m.orphan && c.n <= 1
  }

  /** A burn rejection of the entry itself: it is on the list, or was claimed alone and there is none. */
  predicate Burns(k: Outpoint, c: Cause) {
    && c.Rejection? && !c.m.orphan && !c.m.seqLock && c.m.burned
    && if c.m.listed != {} then k in c.m.listed else c.n <= 1
  }

  function SoloOrphans(cs: seq<Cause>): nat {
    if cs == [] then 0 else SoloOrphans(cs[..|cs| - 1]) + if IsSoloOrphan(cs[|cs| - 1]) then 1 else 0
  }

  lemma RejectedRetries(e: Entry, m: Message, n: nat, daa: nat)
    ensures Rejected(e, m, n, daa).orphanRetries == e.orphanRetries + if m.orphan && n <= 1 then 1 else 0
    ensures Key(Rejected(e, m, n, daa)) == Key(e)
  {
    hide UnknownCooldown, HalvedCap;
  }

  lemma RetriesStep(e: Entry, c: Cause)
    ensures After(e, c).orphanRetries == e.orphanRetries + if IsSoloOrphan(c) then 1 else 0
    ensures Key(After(e, c)) == Key(e)
  {
    hide HoldoffOver, Rejected;
    if c.Rejection? { RejectedRetries(e, c.m, c.n, c.daa); }
  }

  /** The orphan counter is exactly the number of solo orphan rejections; nothing resets it. */
  lemma {:induction false} RetriesCountSoloOrphans(e: Entry, cs: seq<Cause>)
    ensures AfterAll(e, cs).orphanRetries == e.orphanRetries + SoloOrphans(cs)
  {
    hide After, IsSoloOrphan;
    if cs != [] {
      RetriesCountSoloOrphans(e, cs[..|cs| - 1]);
      RetriesStep(AfterAll(e, cs[..|cs| - 1]), cs[|cs| - 1]);
    }
  }

  /** One step slashes exactly by exclusion, by a burn of the entry itself, or by a solo orphan rejection
      that makes ten. */
  lemma SlashStep(e: Entry, c: Cause)
    requires !e.slashed
    ensures After(e, c).slashed <==>
      c.Exclusion? || Burns(Key(e), c) || (IsSoloOrphan(c) && e.orphanRetries + 1 >= MAX_ORPHAN_RETRIES)
  {
    hide UnknownCooldown, HoldoffOver, HalvedCap;
  }

  lemma {:induction false} SameKey(e: Entry, cs: seq<Cause>)
    ensures Key(AfterAll(e, cs)) == Key(e)
  {
    hide After, Key;
    if cs != [] {
      SameKey(e, cs[..|cs| - 1]);
      RetriesStep(AfterAll(e, cs[..|cs| - 1]), cs[|cs| - 1]);
    }
  }

  /** No slash by association: in every history without exclusion and without a burn of the entry
      itself, an entry that starts unslashed is slashed only once its solo orphan rejections, those
      counted before included, are ten, however often and with whatever company it was rejected in
      batches, with burned neighbours or with unrecognised texts. */
  lemma {:induction false} NoSlashByAssociation(e: Entry, cs: seq<Cause>)
    requires !e.slashed
    requires forall i :: 0 <= i < |cs| ==> !cs[i].Exclusion? && !Burns(Key(e), cs[i])
    ensures AfterAll(e, cs).slashed ==> e.orphanRetries + SoloOrphans(cs) >= MAX_ORPHAN_RETRIES
  {
    hide After, IsSoloOrphan, Burns, Key;
    if cs != [] {
      var k := |cs| - 1;
      NoSlashByAssociation(e, cs[..k]);
      var before := AfterAll(e, cs[..k]);
      if !before.slashed && AfterAll(e, cs).slashed {
        SameKey(e, cs[..k]);
        SlashStep(before, cs[k]);
        RetriesStep(before, cs[k]);
        RetriesCountSoloOrphans(e, cs);
      }
    }
  }

  /** Solo orphan rejections of a live entry never push the counter past ten, and reaching ten slashes. */
  lemma TenthSlashes(e: Entry, c: Cause)
    requires e.orphanRetries < MAX_ORPHAN_RETRIES
    ensures After(e, c).orphanRetries <= MAX_ORPHAN_RETRIES
    ensures After(e, c).orphanRetries == MAX_ORPHAN_RETRIES ==> After(e, c).slashed
  {
    hide HoldoffOver, UnknownCooldown, HalvedCap, Capped, Healed;
    RetriesStep(e, c);
    if IsSoloOrphan(c) {
      assert After(e, c) == Rejected(e, c.m, c.n, c.daa);
    }
  }

  // ---- bisection ----

  /** A batch rejection that sets the cap. */
  predicate SetsCap(c: Cause) {
    c.Rejection? && c.n > 1 && (c.m.orphan || (!c.m.seqLock && (!c.m.burned || c.m.listed == {})))
  }

  /** The history respects the caps: every rejected batch was no larger than the entry's cap, and no
      cap expired in between. */
  ghost predicate WithinCaps(e: Entry, cs: seq<Cause>) {
    forall i :: 0 <= i < |cs| ==>
      && (SetsCap(cs[i]) ==> cs[i].n <= Cap(AfterAll(e, cs[..i])))
      && (cs[i].Forgiveness? ==> Cap(After(AfterAll(e, cs[..i]), cs[i])) == Cap(AfterAll(e, cs[..i])))
  }

  function CapSettings(cs: seq<Cause>): nat {
    if cs == [] then 0 else CapSettings(cs[..|cs| - 1]) + if SetsCap(cs[|cs| - 1]) then 1 else 0
  }

  /** A cap-setting rejection of a batch within the cap at least halves it. */
  lemma CapHalves(e: Entry, c: Cause)
    requires SetsCap(c) && c.n <= Cap(e)
    ensures Cap(e) >= 2 && 2 * Cap(After(e, c)) <= Cap(e)
    ensures Cap(After(e, c)) < Cap(e)
  {}

  lemma CapKept(e: Entry, c: Cause)
    requires !SetsCap(c) && !c.Forgiveness?
    ensures Cap(After(e, c)) == Cap(e)
  {
    hide UnknownCooldown, HoldoffOver;
  }

  lemma {:induction false} CapShrinks(e: Entry, cs: seq<Cause>)
    requires WithinCaps(e, cs)
    ensures Pow.Pow2(CapSettings(cs)) * Cap(AfterAll(e, cs)) <= MAX_CLAIM_BATCH
  {
    hide After, SetsCap, Cap;
    if cs != [] {
      var k := |cs| - 1;
      var before, c := AfterAll(e, cs[..k]), cs[k];
      WithinCapsPrefix(e, cs, k);
      CapShrinks(e, cs[..k]);
      if SetsCap(c) {
        CapHalves(before, c);
        HalfProduct(Pow.Pow2(CapSettings(cs[..k])), Cap(After(before, c)), Cap(before), MAX_CLAIM_BATCH);
      } else if !c.Forgiveness? {
        CapKept(before, c);
      }
    }
  }

  lemma WithinCapsPrefix(e: Entry, cs: seq<Cause>, k: nat)
    requires WithinCaps(e, cs) && k <= |cs|
    ensures WithinCaps(e, cs[..k])
  {
    hide After, SetsCap, Cap;
    forall i | 0 <= i < k
      ensures cs[..k][i] == cs[i] && cs[..k][..i] == cs[..i]
    {}
  }

  lemma HalfProduct(p: nat, c: nat, d: nat, limit: nat)
    requires 2 * c <= d && p * d <= limit
    ensures 2 * p * c <= limit
  {
    assert 2 * p * c == p * (2 * c);
    Pow.Scale(2 * c, d, p);
  }

  /** Bisection ends: within a cap's lifetime at most six rejections set it, and after six the entry
      is only ever claimed alone. */
  lemma BisectionEnds(e: Entry, cs: seq<Cause>)
    requires WithinCaps(e, cs)
    ensures CapSettings(cs) <= 6
    ensures CapSettings(cs) == 6 ==> Cap(AfterAll(e, cs)) == 1
  {
    hide CapSettings, AfterAll, WithinCaps, Cap;
    CapShrinks(e, cs);
    var k, c := CapSettings(cs), Cap(AfterAll(e, cs));
    assert Pow.Pow2(6) == 64 && Pow.Pow2(7) == 128;
    if k >= 7 {
      Pow.Pow2Monotone(7, k);
      Pow.Scale(1, c, Pow.Pow2(k));
    }
    Pow.Scale(2, if c < 2 then 2 else c, 64);
  }

  // ---- whole lives ----

  /** Every cap-setting rejection of the entry while it was live came from a batch within its cap. */
  ghost predicate RespectsCaps(e: Entry, cs: seq<Cause>) {
    forall i :: 0 <= i < |cs| ==> CapRespected(AfterAll(e, cs[..i]), cs[i])
  }

  predicate CapRespected(e: Entry, c: Cause) {
    Live(e) && SetsCap(c) ==> c.n <= Cap(e)
  }

  lemma RespectsSnoc(e: Entry, cs: seq<Cause>, c: Cause)
    requires RespectsCaps(e, cs) && CapRespected(AfterAll(e, cs), c)
    ensures RespectsCaps(e, cs + [c])
    ensures AfterAll(e, cs + [c]) == After(AfterAll(e, cs), c)
  {
    hide CapRespected, After;
    var cs' := cs + [c];
    assert cs'[..|cs|] == cs;
    forall i | 0 <= i < |cs'|
      ensures CapRespected(AfterAll(e, cs'[..i]), cs'[i])
    {
      if i < |cs| { assert cs'[..i] == cs[..i]; }
    }
  }

  lemma {:induction false} AfterAllConcat(e: Entry, cs: seq<Cause>, ds: seq<Cause>)
    ensures AfterAll(e, cs + ds) == AfterAll(AfterAll(e, cs), ds)
    decreases |ds|
  {
    hide After;
    if ds == [] {
      assert cs + ds == cs;
    } else {
      var k := |ds| - 1;
      AfterAllConcat(e, cs, ds[..k]);
      assert (cs + ds)[..|cs| + k] == cs + ds[..k];
    }
  }

  /** A claimed or slashed entry stays so. */
  lemma {:induction false} DoneForever(e: Entry, cs: seq<Cause>)
    requires Live(AfterAll(e, cs))
    ensures Live(e)
  {
    hide After;
    if cs != [] {
      LiveBefore(AfterAll(e, cs[..|cs| - 1]), cs[|cs| - 1]);
      DoneForever(e, cs[..|cs| - 1]);
    }
  }

  lemma LiveBefore(e: Entry, c: Cause)
    requires Live(After(e, c))
    ensures Live(e)
  {
    hide UnknownCooldown, HoldoffOver, HalvedCap;
  }

  /** No cap expires between `from` and `to`. */
  ghost predicate NoExpiry(e: Entry, cs: seq<Cause>, from: nat, to: nat)
    requires from <= to <= |cs|
  {
    forall i :: from <= i < to && cs[i].Forgiveness? ==> Cap(After(AfterAll(e, cs[..i]), cs[i])) == Cap(AfterAll(e, cs[..i]))
  }

  /** In the life of an entry that is still live, every stretch without cap expiry holds at most six
      cap-setting rejections, and after six the entry is only claimed alone. */
  lemma LifetimeBisectionEnds(e: Entry, cs: seq<Cause>, from: nat, to: nat)
    requires from <= to <= |cs|
    requires RespectsCaps(e, cs) && Live(AfterAll(e, cs)) && NoExpiry(e, cs, from, to)
    ensures CapSettings(cs[from..to]) <= 6
    ensures CapSettings(cs[from..to]) == 6 ==> Cap(AfterAll(e, cs[..to])) == 1
  {
    hide After, Cap, SetsCap, CapSettings, AfterAll, Live;
    var start, window := AfterAll(e, cs[..from]), cs[from..to];
    forall i | 0 <= i <= |window|
      ensures AfterAll(start, window[..i]) == AfterAll(e, cs[..from + i])
    {
      AfterAllConcat(e, cs[..from], window[..i]);
      assert cs[..from] + window[..i] == cs[..from + i];
    }
    forall i | 0 <= i < |window|
      ensures Live(AfterAll(start, window[..i])) && window[i] == cs[from + i]
    {
      AfterAllConcat(e, cs[..from + i], cs[from + i..]);
      assert cs[..from + i] + cs[from + i..] == cs;
      DoneForever(AfterAll(e, cs[..from + i]), cs[from + i..]);
    }
    assert WithinCaps(start, window) by {
      forall i | 0 <= i < |window|
        ensures CapRespected(AfterAll(start, window[..i]), window[i])
      {
        assert CapRespected(AfterAll(e, cs[..from + i]), cs[from + i]);
      }
    }
    BisectionEnds(start, window);
    assert window[..|window|] == window;
  }

  // ---- entries only move along ----

  /** Same outpoint, block and amount, and nothing done comes back to life. */
  predicate Follows(e: Entry, e': Entry) {
    && Key(e') == Key(e) && e'.blockHash == e.blockHash && e'.isInference == e.isInference && e'.amount == e.amount
    && (Live(e') ==> Live(e))
  }

  lemma AfterFollows(e: Entry, c: Cause)
    ensures Follows(e, After(e, c))
  {
    hide HoldoffOver, Rejected;
    if c.Rejection? { RejectedFollows(e, c.m, c.n, c.daa); }
  }

  lemma RejectedFollows(e: Entry, m: Message, n: nat, daa: nat)
    ensures Follows(e, Rejected(e, m, n, daa))
  {
    hide UnknownCooldown, HalvedCap;
  }

  lemma FollowsTrans(a: Entry, b: Entry, c: Entry)
    requires Follows(a, b) && Follows(b, c)
    ensures Follows(a, c)
  {}

  lemma FollowsSelf(e: Entry)
    ensures Follows(e, e)
  {}

  /** A live entry has not been given up. */
  predicate Hopeful(e: Entry) {
    Live(e) ==> e.orphanRetries < MAX_ORPHAN_RETRIES
  }

  lemma AfterHopeful(e: Entry, c: Cause)
    requires Hopeful(e)
    ensures Hopeful(After(e, c))
  {
    hide After;
    if Live(After(e, c)) {
      LiveBefore(e, c);
      TenthSlashes(e, c);
    }
  }
}
