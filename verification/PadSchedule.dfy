/** Which of the 256 steps of a v5 walk read a pad tile. */
module PadSchedule {
  const K: nat := 256

  function PadSteps(weightTiles: nat, padTiles: nat): (s: nat)
    requires weightTiles + padTiles > 0
    ensures 1 <= s <= 255
  {
    var n := weightTiles + padTiles;
    var s := (K * padTiles + n / 2) / n;
    if s < 1 then 1 else if s > K - 1 then K - 1 else s
  }

  predicate IsPadStep(step: nat, padSteps: nat)
    requires step >= 1
  {
    step * padSteps / K != (step - 1) * padSteps / K
  }

  /** Pad steps among steps `1..k`. */
  function PadStepsUpTo(k: nat, padSteps: nat): nat {
    if k == 0 then 0 else PadStepsUpTo(k - 1, padSteps) + if IsPadStep(k, padSteps) then 1 else 0
  }

  lemma {:induction false} PadStepsTelescope(k: nat, padSteps: nat)
    requires padSteps <= K
    ensures PadStepsUpTo(k, padSteps) == k * padSteps / K
  {
    if k > 0 {
      PadStepsTelescope(k - 1, padSteps);
      assert k * padSteps == (k - 1) * padSteps + padSteps;
    }
  }

  /** For all positive tile counts: between 1 and 255 pad steps, exactly that many of the 256, and
      never the first. */
  lemma ScheduleExact(weightTiles: nat, padTiles: nat)
    requires weightTiles >= 1 && padTiles >= 1
    ensures var s := PadSteps(weightTiles, padTiles);
      && 1 <= s <= 255
      && PadStepsUpTo(K, s) == s
      && !IsPadStep(1, s)
  {
    var s := PadSteps(weightTiles, padTiles);
    PadStepsTelescope(K, s);
  }

  /** Away from the clamp the share of pad steps is the pad's share of the tiles, rounded to the
      nearest 256th. */
  lemma ScheduleIsNearest(weightTiles: nat, padTiles: nat)
    requires weightTiles >= 1 && padTiles >= 1
    ensures var n, s := weightTiles + padTiles, PadSteps(weightTiles, padTiles);
      1 < s < 255 ==> -n <= 2 * (s * n - K * padTiles) <= n
  {
    var n := weightTiles + padTiles;
    var x := K * padTiles + n / 2;
    assert x == (x / n) * n + x % n;
  }
}
