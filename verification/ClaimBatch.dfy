/** `select_claim_batch`: which outputs the next claim spends. */
module ClaimBatch {
  import opened EscrowEntry
  import opened Wrappers

  const MATURITY_MARGIN: nat := 10

  /** What one selection looks at; `current` is the CSV window coinbases mint at `daa`. */
  datatype Ctx = Ctx(entries: seq<Entry>, daa: nat, current: nat, inFlight: set<Outpoint>)

  predicate Eligible(c: Ctx, e: Entry) {
    && Live(e)
    && c.daa >= e.confirmDaa + e.csvWindow + MATURITY_MARGIN
    && (e.retryAfter.Some? ==> c.daa >= e.retryAfter.value)
    && Key(e) !in c.inFlight
  }

  predicate InPass(c: Ctx, pass: nat, e: Entry) {
    if pass == 0 then e.batchCap == 0 && !e.orphanSlashed
    else if pass == 1 then e.batchCap != 0 && !e.orphanSlashed
    else if pass == 2 then e.batchCap == 0 && !e.orphanSlashed && e.csvWindow != c.current
    else e.orphanSlashed
  }

  datatype Candidate = Candidate(pass: nat, window: Option<nat>)

  predicate Fits(c: Ctx, pass: nat, window: Option<nat>, i: nat)
    requires i < |c.entries|
  {
    var e := c.entries[i];
    InPass(c, pass, e) && Eligible(c, e) && (window.Some? ==> window.value == e.csvWindow)
  }

  function Min(a: nat, b: nat): nat {
    if a <= b then a else b
  }

  // ---- one candidate ----

  /** A batch under construction: its members, the size no member's cap forbids, its window. */
  datatype Acc = Acc(batch: seq<nat>, limit: nat, window: Option<nat>)

  function Consider(c: Ctx, pass: nat, a: Acc, i: nat): Acc
    requires i < |c.entries|
  {
    if !Fits(c, pass, a.window, i) || Min(Cap(c.entries[i]), a.limit) < |a.batch| + 1 then a
    else Acc(a.batch + [i], Min(a.limit, Cap(c.entries[i])), Some(c.entries[i].csvWindow))
  }

  predicate InRange(c: Ctx, order: seq<nat>) {
    forall k :: 0 <= k < |order| ==> order[k] < |c.entries|
  }

  function FillFrom(c: Ctx, cand: Candidate, order: seq<nat>): Acc
    requires InRange(c, order)
  {
    if order == [] then Acc([], MAX_CLAIM_BATCH, cand.window)
    else
      var k := |order| - 1;
      Consider(c, cand.pass, FillFrom(c, cand, order[..k]), order[k])
  }

  /** Indices of one kind among the first `n`, in queue order. */
  function OfKind(c: Ctx, n: nat, inference: bool): (order: seq<nat>)
    requires n <= |c.entries|
    ensures InRange(c, order)
    ensures forall k :: 0 <= k < |order| ==> order[k] < n && c.entries[order[k]].isInference == inference
  {
    if n == 0 then []
    else OfKind(c, n - 1, inference) + if c.entries[n - 1].isInference == inference then [n - 1] else []
  }

  function Upto(n: nat): (order: seq<nat>)
    ensures |order| == n && forall k :: 0 <= k < n ==> order[k] == k
  {
    seq(n, k => k)
  }

  /** The nominal pass looks at inference outputs first. */
  function Order(c: Ctx, pass: nat): (order: seq<nat>)
    ensures InRange(c, order)
  {
    if pass == 0 then OfKind(c, |c.entries|, true) + OfKind(c, |c.entries|, false) else Upto(|c.entries|)
  }

  function Batch(c: Ctx, cand: Candidate): seq<nat> {
    FillFrom(c, cand, Order(c, cand.pass)).batch
  }

  predicate Releasable(c: Ctx, cand: Candidate) {
    if cand.pass == 0 then |Batch(c, cand)| >= MAX_CLAIM_BATCH else Batch(c, cand) != []
  }

  // ---- candidates ----

  /** Sort key order: the current window first, then ascending. */
  predicate Before(current: nat, a: nat, b: nat) {
    (a == current && b != current) || ((a == current <==> b == current) && a < b)
  }

  function Insert(current: nat, w: nat, ws: seq<nat>): (r: seq<nat>)
    ensures forall v :: v in r <==> v == w || v in ws
  {
    if ws == [] then [w]
    else if w == ws[0] then ws
    else if Before(current, w, ws[0]) then [w] + ws
    else
      var rest := Insert(current, w, ws[1..]);
      assert ws == [ws[0]] + ws[1..];
      [ws[0]] + rest
  }

  /** The windows present, deduplicated, in trial order. */
  function Windows(c: Ctx, n: nat): (ws: seq<nat>)
    requires n <= |c.entries|
  {
    if n == 0 then [] else Insert(c.current, c.entries[n - 1].csvWindow, Windows(c, n - 1))
  }

  ghost predicate Sorted(current: nat, ws: seq<nat>) {
    forall i, j :: 0 <= i < j < |ws| ==> Before(current, ws[i], ws[j])
  }

  lemma {:induction false} InsertSorted(current: nat, w: nat, ws: seq<nat>)
    requires Sorted(current, ws)
    ensures Sorted(current, Insert(current, w, ws))
  {
    if ws != [] && w != ws[0] && !Before(current, w, ws[0]) {
      InsertSorted(current, w, ws[1..]);
      var rest := Insert(current, w, ws[1..]);
      forall j | 0 <= j < |rest|
        ensures Before(current, ws[0], rest[j])
      {
        assert rest[j] in rest;
      }
    }
  }

  lemma {:induction false} WindowsSorted(c: Ctx, n: nat)
    requires n <= |c.entries|
    ensures Sorted(c.current, Windows(c, n))
    ensures forall v :: v in Windows(c, n) <==> exists i :: 0 <= i < n && c.entries[i].csvWindow == v
  {
    if n > 0 {
      WindowsSorted(c, n - 1);
      InsertSorted(c.current, c.entries[n - 1].csvWindow, Windows(c, n - 1));
    }
  }

  function Nominal(ws: seq<nat>): (cands: seq<Candidate>)
    ensures |cands| == |ws| && forall k :: 0 <= k < |ws| ==> cands[k] == Candidate(0, Some(ws[k]))
  {
    seq(|ws|, k requires 0 <= k < |ws| => Candidate(0, Some(ws[k])))
  }

  function Candidates(c: Ctx): seq<Candidate> {
    Nominal(Windows(c, |c.entries|)) + [Candidate(1, None), Candidate(2, None), Candidate(3, None)]
  }

  /** The first releasable candidate's batch. */
  function FirstOf(c: Ctx, cands: seq<Candidate>): seq<nat> {
    if cands == [] then []
    else if Releasable(c, cands[0]) then Batch(c, cands[0])
    else FirstOf(c, cands[1..])
  }

  function Select(c: Ctx): seq<nat> {
    FirstOf(c, Candidates(c))
  }

  // ---- what a candidate's batch is ----

  /** Every member is eligible, of the pass and of the batch's window, and no cap is exceeded. */
  ghost predicate BatchOk(c: Ctx, pass: nat, a: Acc) {
    && |a.batch| <= a.limit <= MAX_CLAIM_BATCH
    && Distinct(a.batch)
    && (a.batch != [] ==> a.window.Some?)
    && forall k :: 0 <= k < |a.batch| ==> MemberOk(c, pass, a, a.batch[k])
  }

  ghost predicate MemberOk(c: Ctx, pass: nat, a: Acc, i: nat) {
    i < |c.entries| && Fits(c, pass, a.window, i) && a.limit <= Cap(c.entries[i])
  }

  lemma ConsiderOk(c: Ctx, pass: nat, a: Acc, i: nat)
    requires i < |c.entries| && BatchOk(c, pass, a) && i !in a.batch
    ensures BatchOk(c, pass, Consider(c, pass, a, i))
  {
    hide InPass, Eligible, Cap;
    var a' := Consider(c, pass, a, i);
    if a' != a {
      forall k | 0 <= k < |a'.batch|
        ensures MemberOk(c, pass, a', a'.batch[k])
      {
        if k < |a.batch| { assert MemberOk(c, pass, a, a.batch[k]); }
      }
    }
  }

  lemma {:induction false} FillOk(c: Ctx, cand: Candidate, order: seq<nat>)
    requires InRange(c, order) && Distinct(order)
    ensures BatchOk(c, cand.pass, FillFrom(c, cand, order))
    ensures forall i :: i in FillFrom(c, cand, order).batch ==> i in order
  {
    hide BatchOk;
    if order == [] {
      StartOk(c, cand);
    } else {
      var k := |order| - 1;
      FillOk(c, cand, order[..k]);
      ConsiderOk(c, cand.pass, FillFrom(c, cand, order[..k]), order[k]);
    }
  }

  lemma StartOk(c: Ctx, cand: Candidate)
    ensures BatchOk(c, cand.pass, Acc([], MAX_CLAIM_BATCH, cand.window))
  {}

  lemma {:induction false} OfKindAscends(c: Ctx, n: nat, inference: bool)
    requires n <= |c.entries|
    ensures forall i, j :: 0 <= i < j < |OfKind(c, n, inference)| ==> OfKind(c, n, inference)[i] < OfKind(c, n, inference)[j]
  {
    if n > 0 { OfKindAscends(c, n - 1, inference); }
  }

  lemma OrderDistinct(c: Ctx, pass: nat)
    ensures Distinct(Order(c, pass))
  {
    hide OfKind;
    OfKindAscends(c, |c.entries|, true);
    OfKindAscends(c, |c.entries|, false);
  }

  lemma {:induction false} OfKindComplete(c: Ctx, n: nat, inference: bool, i: nat)
    requires n <= |c.entries| && i < n && c.entries[i].isInference == inference
    ensures i in OfKind(c, n, inference)
  {
    if i < n - 1 { OfKindComplete(c, n - 1, inference, i); }
  }

  /** Every entry is looked at in every pass. */
  lemma OrderComplete(c: Ctx, pass: nat, i: nat)
    requires i < |c.entries|
    ensures i in Order(c, pass)
  {
    hide OfKind;
    if pass == 0 {
      OfKindComplete(c, |c.entries|, c.entries[i].isInference, i);
    } else {
      assert Upto(|c.entries|)[i] == i;
    }
  }

  /** A full batch takes no one else, so stopping early changes nothing. */
  lemma {:induction false} FullStays(c: Ctx, cand: Candidate, order: seq<nat>, k: nat)
    requires InRange(c, order) && k <= |order|
    requires InRange(c, order[..k]) && |FillFrom(c, cand, order[..k]).batch| >= FillFrom(c, cand, order[..k]).limit
    ensures FillFrom(c, cand, order) == FillFrom(c, cand, order[..k])
    decreases |order|
  {
    hide Fits, Cap;
    if k == |order| {
      assert order[..k] == order;
    } else {
      var m := |order| - 1;
      assert order[..m][..k] == order[..k];
      FullStays(c, cand, order[..m], k);
    }
  }

  // ---- the batch is maximal ----

  /** A fitting entry is left out only when its own cap, or a member's, forbids a larger batch. */
  lemma {:induction false} FillMaximal(c: Ctx, cand: Candidate, order: seq<nat>, i: nat)
    requires InRange(c, order) && i in order && Distinct(order)
    requires var a := FillFrom(c, cand, order); Fits(c, cand.pass, a.window, i) && i !in a.batch
    ensures var a := FillFrom(c, cand, order); Cap(c.entries[i]) <= |a.batch| || a.limit <= |a.batch|
  {
    hide InPass, Eligible, Cap;
    var k := |order| - 1;
    var a, a' := FillFrom(c, cand, order[..k]), FillFrom(c, cand, order);
    FillOk(c, cand, order[..k]);
    if i != order[k] {
      assert i in order[..k];
      if a.window == a'.window {
        FillMaximal(c, cand, order[..k], i);
      } else {
        EarlierWouldFit(c, cand, order[..k], i);
      }
    }
  }

  /** The batch cannot be enlarged: any further entry of its pass and window exceeds a cap. */
  lemma BatchMaximal(c: Ctx, cand: Candidate, i: nat)
    requires i < |c.entries|
    requires var a := FillFrom(c, cand, Order(c, cand.pass)); Fits(c, cand.pass, a.window, i) && i !in a.batch
    ensures var a := FillFrom(c, cand, Order(c, cand.pass)); Cap(c.entries[i]) <= |a.batch| || a.limit <= |a.batch|
  {
    hide FillFrom, Order, Fits, Cap;
    OrderDistinct(c, cand.pass);
    OrderComplete(c, cand.pass, i);
    FillMaximal(c, cand, Order(c, cand.pass), i);
  }

  /** While no window is fixed nothing fitting was passed over. */
  lemma {:induction false} EarlierWouldFit(c: Ctx, cand: Candidate, order: seq<nat>, i: nat)
    requires InRange(c, order) && i in order && FillFrom(c, cand, order).window.None?
    ensures !Fits(c, cand.pass, None, i)
    ensures FillFrom(c, cand, order) == Acc([], MAX_CLAIM_BATCH, cand.window)
  {
    hide InPass, Eligible;
    var k := |order| - 1;
    EmptyWhileOpen(c, cand, order[..k]);
    if i != order[k] {
      assert i in order[..k];
      EarlierWouldFit(c, cand, order[..k], i);
    }
  }

  lemma {:induction false} EmptyWhileOpen(c: Ctx, cand: Candidate, order: seq<nat>)
    requires InRange(c, order) && FillFrom(c, cand, order).window.None?
    ensures FillFrom(c, cand, order) == Acc([], MAX_CLAIM_BATCH, cand.window)
  {
    hide InPass, Eligible;
    if order != [] {
      var k := |order| - 1;
      EmptyWhileOpen(c, cand, order[..k]);
    }
  }

  // ---- counting ----

  function CountFits(c: Ctx, pass: nat, window: Option<nat>, order: seq<nat>): nat
    requires InRange(c, order)
  {
    if order == [] then 0
    else CountFits(c, pass, window, order[..|order| - 1]) + if Fits(c, pass, window, order[|order| - 1]) then 1 else 0
  }

  /** A nominal candidate takes every fitting entry up to 87. */
  lemma {:induction false} NominalTakesAll(c: Ctx, w: nat, order: seq<nat>)
    requires InRange(c, order)
    ensures var a := FillFrom(c, Candidate(0, Some(w)), order);
      && |a.batch| == Min(MAX_CLAIM_BATCH, CountFits(c, 0, Some(w), order))
      && a.limit == MAX_CLAIM_BATCH && a.window == Some(w)
  {
    hide Eligible;
    if order != [] {
      NominalTakesAll(c, w, order[..|order| - 1]);
    }
  }

  /** Inference outputs are never starved: if a fitting one is left out of a nominal batch, every member
      is one. */
  lemma InferenceFirst(c: Ctx, w: nat, i: nat, k: nat)
    requires i < |c.entries| && c.entries[i].isInference && Fits(c, 0, Some(w), i)
    requires i !in Batch(c, Candidate(0, Some(w))) && k in Batch(c, Candidate(0, Some(w)))
    ensures k < |c.entries| && c.entries[k].isInference
  {
    hide Fits, Cap, OfKind, FillFrom;
    var cand := Candidate(0, Some(w));
    var first, order := OfKind(c, |c.entries|, true), Order(c, 0);
    var n := |first|;
    assert order[..n] == first;
    OfKindComplete(c, |c.entries|, true, i);
    OfKindAscends(c, |c.entries|, true);
    NominalTakesAll(c, w, first);
    FillOk(c, cand, first);
    PrefixStays(c, cand, order, n, i);
    FillMaximal(c, cand, first, i);
    UncappedFits(c, w, i);
    FullStays(c, cand, order, n);
  }

  lemma UncappedFits(c: Ctx, w: nat, i: nat)
    requires i < |c.entries| && Fits(c, 0, Some(w), i)
    ensures Cap(c.entries[i]) == MAX_CLAIM_BATCH
  {}

  /** Members stay members. */
  lemma {:induction false} PrefixStays(c: Ctx, cand: Candidate, order: seq<nat>, n: nat, i: nat)
    requires InRange(c, order) && n <= |order|
    ensures InRange(c, order[..n])
    ensures i in FillFrom(c, cand, order[..n]).batch ==> i in FillFrom(c, cand, order).batch
    decreases |order|
  {
    hide Fits, Cap;
    if n == |order| {
      assert order[..n] == order;
    } else {
      var m := |order| - 1;
      assert order[..m][..n] == order[..n];
      PrefixStays(c, cand, order[..m], n, i);
    }
  }

  /** A candidate without a forced window has a batch exactly when some entry fits. */
  lemma {:induction false} OpenBatchNonempty(c: Ctx, pass: nat, order: seq<nat>)
    requires InRange(c, order)
    ensures FillFrom(c, Candidate(pass, None), order).batch != []
       <==> exists k :: 0 <= k < |order| && Fits(c, pass, None, order[k])
    ensures FillFrom(c, Candidate(pass, None), order).batch == [] ==>
              FillFrom(c, Candidate(pass, None), order) == Acc([], MAX_CLAIM_BATCH, None)
  {
    hide InPass, Eligible;
    if order != [] {
      var k := |order| - 1;
      OpenBatchNonempty(c, pass, order[..k]);
      forall j | 0 <= j < k
        ensures order[..k][j] == order[j]
      {}
      if exists j :: 0 <= j < k && Fits(c, pass, None, order[j]) {
        var j :| 0 <= j < k && Fits(c, pass, None, order[j]);
        assert Fits(c, pass, None, order[..k][j]);
      }
    }
  }

  lemma PassNonempty(c: Ctx, pass: nat)
    requires pass >= 1
    ensures Releasable(c, Candidate(pass, None)) <==> exists i :: 0 <= i < |c.entries| && Fits(c, pass, None, i)
  {
    hide Fits, FillFrom;
    var order := Order(c, pass);
    OpenBatchNonempty(c, pass, order);
    if exists i :: 0 <= i < |c.entries| && Fits(c, pass, None, i) {
      var i :| 0 <= i < |c.entries| && Fits(c, pass, None, i);
      assert Fits(c, pass, None, order[i]);
    }
  }

  function CountEligible(c: Ctx, n: nat): nat
    requires n <= |c.entries|
  {
    if n == 0 then 0 else CountEligible(c, n - 1) + if Eligible(c, c.entries[n - 1]) then 1 else 0
  }

  lemma {:induction false} CountConcat(c: Ctx, w: Option<nat>, a: seq<nat>, b: seq<nat>)
    requires InRange(c, a) && InRange(c, b)
    ensures InRange(c, a + b)
    ensures CountFits(c, 0, w, a + b) == CountFits(c, 0, w, a) + CountFits(c, 0, w, b)
    decreases |b|
  {
    hide Fits;
    if b == [] {
      assert a + b == a;
    } else {
      var k := |b| - 1;
      CountConcat(c, w, a, b[..k]);
      assert (a + b)[..|a| + k] == a + b[..k];
    }
  }

  lemma {:induction false} CountSnoc(c: Ctx, w: Option<nat>, a: seq<nat>, i: nat)
    requires InRange(c, a) && i < |c.entries|
    ensures CountFits(c, 0, w, a + [i]) == CountFits(c, 0, w, a) + if Fits(c, 0, w, i) then 1 else 0
  {
    assert (a + [i])[..|a|] == a;
  }

  /** Fitting entries of both kinds together are at most the eligible ones, and all of them when every
      eligible entry fits. */
  lemma {:induction false} CountBoth(c: Ctx, w: nat, n: nat)
    requires n <= |c.entries|
    ensures var both := CountFits(c, 0, Some(w), OfKind(c, n, true)) + CountFits(c, 0, Some(w), OfKind(c, n, false));
      && both <= CountEligible(c, n)
      && ((forall i :: 0 <= i < n && Eligible(c, c.entries[i]) ==> Fits(c, 0, Some(w), i)) ==> both == CountEligible(c, n))
  {
    hide Fits, Eligible, OfKind, CountFits;
    if n == 0 {
      NoKind(c, w);
    } else {
      CountBoth(c, w, n - 1);
      var kind := c.entries[n - 1].isInference;
      OfKindStep(c, n);
      CountSnoc(c, Some(w), OfKind(c, n - 1, kind), n - 1);
      FitsIsEligible(c, w, n - 1);
    }
  }

  lemma NoKind(c: Ctx, w: nat)
    ensures CountFits(c, 0, Some(w), OfKind(c, 0, true)) == CountFits(c, 0, Some(w), OfKind(c, 0, false)) == 0
  {}

  lemma OfKindStep(c: Ctx, n: nat)
    requires 1 <= n <= |c.entries|
    ensures var kind := c.entries[n - 1].isInference;
      && OfKind(c, n, kind) == OfKind(c, n - 1, kind) + [n - 1]
      && OfKind(c, n, !kind) == OfKind(c, n - 1, !kind)
  {}

  lemma FitsIsEligible(c: Ctx, w: nat, i: nat)
    requires i < |c.entries|
    ensures Fits(c, 0, Some(w), i) ==> Eligible(c, c.entries[i])
  {}

  lemma NominalCount(c: Ctx, w: nat)
    ensures var n := |c.entries|;
      |Batch(c, Candidate(0, Some(w)))|
        == Min(MAX_CLAIM_BATCH, CountFits(c, 0, Some(w), OfKind(c, n, true)) + CountFits(c, 0, Some(w), OfKind(c, n, false)))
  {
    hide CountFits, OfKind, FillFrom;
    NominalTakesAll(c, w, Order(c, 0));
    CountConcat(c, Some(w), OfKind(c, |c.entries|, true), OfKind(c, |c.entries|, false));
  }

  // ---- the selection ----

  /** All eligible entries are live, uncapped and of the current window, and fewer than 87. */
  ghost predicate NothingToShip(c: Ctx) {
    && (forall i :: 0 <= i < |c.entries| && Eligible(c, c.entries[i]) ==>
          c.entries[i].batchCap == 0 && !c.entries[i].orphanSlashed && c.entries[i].csvWindow == c.current)
    && CountEligible(c, |c.entries|) < MAX_CLAIM_BATCH
  }

  lemma {:induction false} FirstOfEmpty(c: Ctx, cands: seq<Candidate>)
    requires forall k :: 0 <= k < |cands| && Releasable(c, cands[k]) ==> Batch(c, cands[k]) != []
    ensures FirstOf(c, cands) == [] <==> forall k :: 0 <= k < |cands| ==> !Releasable(c, cands[k])
  {
    hide Releasable, Batch;
    if cands != [] {
      FirstOfEmpty(c, cands[1..]);
      assert forall k :: 1 <= k < |cands| ==> cands[k] == cands[1..][k - 1];
      if FirstOf(c, cands) == [] {
        assert !Releasable(c, cands[0]);
      }
    }
  }

  lemma ReleasableNonempty(c: Ctx, cand: Candidate)
    requires Releasable(c, cand)
    ensures Batch(c, cand) != []
  {}

  /** A nominal candidate falls short when nothing is to ship; the current window's falling short
      bounds the eligible entries. */
  lemma NominalShort(c: Ctx, w: nat)
    ensures NothingToShip(c) ==> !Releasable(c, Candidate(0, Some(w)))
    ensures !Releasable(c, Candidate(0, Some(w))) && w == c.current
            && (forall i :: 0 <= i < |c.entries| && Eligible(c, c.entries[i]) ==> Fits(c, 0, Some(w), i))
            ==> CountEligible(c, |c.entries|) < MAX_CLAIM_BATCH
  {
    hide Fits, CountFits, CountEligible, Batch, OfKind, Eligible;
    NominalCount(c, w);
    CountBoth(c, w, |c.entries|);
  }

  lemma RepairPassesEmpty(c: Ctx)
    ensures (!Releasable(c, Candidate(1, None)) && !Releasable(c, Candidate(2, None)) && !Releasable(c, Candidate(3, None)))
       <==> forall i :: 0 <= i < |c.entries| && Eligible(c, c.entries[i]) ==>
              c.entries[i].batchCap == 0 && !c.entries[i].orphanSlashed && c.entries[i].csvWindow == c.current
  {
    hide Eligible, Releasable;
    PassNonempty(c, 1);
    PassNonempty(c, 2);
    PassNonempty(c, 3);
    forall i | 0 <= i < |c.entries| && Eligible(c, c.entries[i])
      ensures (Fits(c, 1, None, i) || Fits(c, 2, None, i) || Fits(c, 3, None, i))
         <==> !(c.entries[i].batchCap == 0 && !c.entries[i].orphanSlashed && c.entries[i].csvWindow == c.current)
    {}
  }

  /** The selection is empty if and only if there is nothing to ship. */
  lemma SelectEmptyIff(c: Ctx)
    ensures Select(c) == [] <==> NothingToShip(c)
  {
    hide Releasable, Batch, Windows, CountEligible, FirstOf;
    var ws := Windows(c, |c.entries|);
    var cands := Candidates(c);
    forall k | 0 <= k < |cands| && Releasable(c, cands[k])
      ensures Batch(c, cands[k]) != []
    {
      ReleasableNonempty(c, cands[k]);
    }
    FirstOfEmpty(c, cands);
    RepairPassesEmpty(c);
    WindowsSorted(c, |c.entries|);
    if NothingToShip(c) {
      forall k | 0 <= k < |cands|
        ensures !Releasable(c, cands[k])
      {
        if k < |ws| { NominalShort(c, ws[k]); }
      }
    }
    if forall k :: 0 <= k < |cands| ==> !Releasable(c, cands[k]) {
      assert cands[|ws|] == Candidate(1, None) && cands[|ws| + 1] == Candidate(2, None) && cands[|ws| + 2] == Candidate(3, None);
      forall k | 0 <= k < |ws|
        ensures !Releasable(c, Candidate(0, Some(ws[k])))
      {
        assert cands[k] == Candidate(0, Some(ws[k]));
      }
      UnreleasedCounts(c, ws);
    }
  }

  lemma UnreleasedCounts(c: Ctx, ws: seq<nat>)
    requires forall v :: v in ws <==> exists i :: 0 <= i < |c.entries| && c.entries[i].csvWindow == v
    requires forall k :: 0 <= k < |ws| ==> !Releasable(c, Candidate(0, Some(ws[k])))
    requires forall i :: 0 <= i < |c.entries| && Eligible(c, c.entries[i]) ==>
      c.entries[i].batchCap == 0 && !c.entries[i].orphanSlashed && c.entries[i].csvWindow == c.current
    ensures CountEligible(c, |c.entries|) < MAX_CLAIM_BATCH
  {
    hide Releasable, Eligible;
    if c.current in ws {
      NominalShort(c, c.current);
    } else {
      forall i | 0 <= i < |c.entries|
        ensures !Eligible(c, c.entries[i])
      {}
      NoneEligible(c, |c.entries|);
    }
  }

  lemma {:induction false} NoneEligible(c: Ctx, n: nat)
    requires n <= |c.entries| && forall i :: 0 <= i < n ==> !Eligible(c, c.entries[i])
    ensures CountEligible(c, n) == 0
  {
    hide Eligible;
    if n > 0 { NoneEligible(c, n - 1); }
  }

  /** One pass, one window, distinct eligible outputs, at most 87 and at most any member's cap; a
      nominal batch is full. */
  ghost predicate IsClaim(c: Ctx, pass: nat, batch: seq<nat>) {
    && batch != [] && |batch| <= MAX_CLAIM_BATCH && Distinct(batch)
    && (pass == 0 ==> |batch| == MAX_CLAIM_BATCH)
    && (forall k :: 0 <= k < |batch| ==> ClaimMember(c, pass, batch, batch[k]))
    && forall j, k :: 0 <= j < k < |batch| ==> c.entries[batch[j]].csvWindow == c.entries[batch[k]].csvWindow
  }

  ghost predicate ClaimMember(c: Ctx, pass: nat, batch: seq<nat>, i: nat) {
    && i < |c.entries| && Eligible(c, c.entries[i]) && InPass(c, pass, c.entries[i])
    && |batch| <= Cap(c.entries[i])
  }

  lemma BatchIsClaim(c: Ctx, cand: Candidate)
    requires Releasable(c, cand)
    ensures IsClaim(c, cand.pass, Batch(c, cand))
  {
    hide FillFrom, Order, InPass, Eligible, Cap;
    OrderDistinct(c, cand.pass);
    FillOk(c, cand, Order(c, cand.pass));
    var a := FillFrom(c, cand, Order(c, cand.pass));
    forall k | 0 <= k < |a.batch|
      ensures ClaimMember(c, cand.pass, a.batch, a.batch[k]) && c.entries[a.batch[k]].csvWindow == a.window.value
    {
      assert MemberOk(c, cand.pass, a, a.batch[k]);
    }
  }

  /** Which candidate a nonempty selection comes from: the first releasable one. */
  lemma {:induction false} FirstOfIs(c: Ctx, cands: seq<Candidate>)
    requires FirstOf(c, cands) != []
    ensures exists k :: 0 <= k < |cands| && IsFirst(c, cands, k) && FirstOf(c, cands) == Batch(c, cands[k])
  {
    hide Releasable, Batch;
    if Releasable(c, cands[0]) {
      assert IsFirst(c, cands, 0);
    } else {
      FirstOfIs(c, cands[1..]);
      var k :| 0 <= k < |cands| - 1 && IsFirst(c, cands[1..], k) && FirstOf(c, cands[1..]) == Batch(c, cands[1..][k]);
      assert forall j :: 1 <= j < |cands| ==> cands[j] == cands[1..][j - 1];
      assert IsFirst(c, cands, k + 1);
    }
  }

  ghost predicate IsFirst(c: Ctx, cands: seq<Candidate>, k: nat) {
    k < |cands| && Releasable(c, cands[k]) && forall j :: 0 <= j < k ==> !Releasable(c, cands[j])
  }

  ghost predicate ChosenBy(c: Ctx, k: nat) {
    var cands := Candidates(c);
    IsFirst(c, cands, k) && Select(c) == Batch(c, cands[k]) && IsClaim(c, cands[k].pass, Select(c))
  }

  /** A nonempty selection is a well-formed claim of the first releasable candidate. */
  lemma SelectSound(c: Ctx)
    requires Select(c) != []
    ensures exists k :: ChosenBy(c, k)
  {
    hide Releasable, Batch, IsClaim, FirstOf, Candidates;
    FirstOfIs(c, Candidates(c));
    var k :| 0 <= k < |Candidates(c)| && IsFirst(c, Candidates(c), k) && FirstOf(c, Candidates(c)) == Batch(c, Candidates(c)[k]);
    BatchIsClaim(c, Candidates(c)[k]);
    assert ChosenBy(c, k);
  }

  /** What the rest of the machine needs of a selection. */
  lemma SelectMembers(c: Ctx)
    ensures Distinct(Select(c)) && |Select(c)| <= MAX_CLAIM_BATCH
    ensures forall k :: 0 <= k < |Select(c)| ==>
      && Select(c)[k] < |c.entries| && Eligible(c, c.entries[Select(c)[k]])
      && |Select(c)| <= Cap(c.entries[Select(c)[k]])
    ensures forall j, k :: 0 <= j < k < |Select(c)| ==> c.entries[Select(c)[j]].csvWindow == c.entries[Select(c)[k]].csvWindow
  {
    hide Eligible, Cap, Select;
    if Select(c) != [] {
      SelectSound(c);
      var k: nat :| ChosenBy(c, k);
      forall m | 0 <= m < |Select(c)|
        ensures ClaimMember(c, Candidates(c)[k].pass, Select(c), Select(c)[m])
      {}
    }
  }

  // ---- the loops ----

  method FillBatch(c: Ctx, cand: Candidate) returns (batch: seq<nat>)
    ensures batch == Batch(c, cand)
  {
    hide Fits, Cap, Order;
    var order := Order(c, cand.pass);
    var a := Acc([], MAX_CLAIM_BATCH, cand.window);
    for k := 0 to |order|
      invariant a == FillFrom(c, cand, order[..k])
    {
      assert order[..k + 1][..k] == order[..k];
      a := Consider(c, cand.pass, a, order[k]);
      if |a.batch| >= a.limit {
        FullStays(c, cand, order, k + 1);
        return a.batch;
      }
    }
    assert order[..|order|] == order;
    batch := a.batch;
  }

  method SelectClaimBatch(c: Ctx) returns (batch: seq<nat>)
    ensures batch == Select(c)
  {
    hide Batch, Candidates;
    var cands := Candidates(c);
    assert cands[0..] == cands;
    for k := 0 to |cands|
      invariant Select(c) == FirstOf(c, cands[k..])
    {
      assert cands[k..][0] == cands[k] && cands[k..][1..] == cands[k + 1..];
      batch := FillBatch(c, cands[k]);
      var releasable := if cands[k].pass == 0 then |batch| >= MAX_CLAIM_BATCH else batch != [];
      if releasable {
        return batch;
      }
    }
    batch := [];
  }
}
