/** One card's miner, its walks, the engine weights they may read in place, and every operation that
    frees or replaces those weights, as interleaved steps of any number of threads. */
module GpuDrain {
  import opened Wrappers

  /** A resident miner. `over` is the engine load whose weights it reads in place, if any. */
  datatype Miner = Miner(id: nat, over: Option<nat>)

  /** Why a thread drains the card. */
  datatype Purpose = Inference | EraSwap | Park

  /** Where a thread is. */
  datatype Pc =
    | Idle
    | Walking(m: Miner)               // holds a cloned handle, outside every lock
    | WantBuild                       // saw no miner; waits for the lifecycle lock
    | Building                        // has the lock, nothing checked yet
    | Cleared                         // has the lock, nothing is draining
    | Built(m: Miner)                 // has the lock and a miner not yet in the map
    | Locked(why: Purpose)            // has the lock, about to uninstall
    | Checked(why: Purpose)           // nothing is draining
    | Waiting(why: Purpose, m: Miner) // took the miner out of the map, waits for its last handle
    | Drained(why: Purpose)           // the uninstall succeeded

  /** Threads below `workers` are mining workers of this card. */
  datatype State = State(threads: seq<Pc>, workers: nat, installed: Option<Miner>, draining: Option<Miner>,
                         lock: Option<nat>, engine: Option<nat>, nextLoad: nat, nextMiner: nat)

  datatype Action =
    | Clone(t: nat)                   // mine, dump, release the pad
    | LetGo(t: nat)
    | SeeMissing(t: nat)              // the unlocked check of ensure_installed
    | BeginBuild(t: nat)
    | CheckBuild(t: nat)
    | Build(t: nat, inPlace: bool)
    | Install(t: nat)
    | AbandonBuild(t: nat)
    | Acquire(t: nat, why: Purpose)
    | CheckDrain(t: nat)
    | Remove(t: nat)
    | SoleOwner(t: nat)
    | TimeOut(t: nat)
    | Load(t: nat, success: bool)     // another model: what the engine hosts is freed first
    | Unload(t: nat)
    | Finish(t: nat)                  // let go of the lock, done or refused

  predicate HasLock(pc: Pc) {
    !pc.Idle? && !pc.Walking? && !pc.WantBuild?
  }

  /** Some thread holds a handle to `m`. */
  ghost predicate HeldByWalk(s: State, m: Miner) {
    exists t :: 0 <= t < |s.threads| && s.threads[t] == Walking(m)
  }

  /** The draining entry, if any, has no other handle. */
  ghost predicate NothingDrains(s: State) {
    s.draining.Some? ==> !HeldByWalk(s, s.draining.value)
  }

  ghost predicate Enabled(s: State, a: Action) {
    a.t < |s.threads| &&
    var pc := s.threads[a.t];
    match a
    case Clone(_) => pc.Idle? && s.installed.Some?
    case LetGo(_) => pc.Walking?
    case SeeMissing(t) => pc.Idle? && t < s.workers && s.installed.None?
    case BeginBuild(_) => pc.WantBuild? && s.lock.None?
    case CheckBuild(_) => pc.Building? && NothingDrains(s)
    case Build(_, inPlace) => pc.Cleared? && (inPlace ==> s.engine.Some?)
    case Install(_) => pc.Built?
    case AbandonBuild(_) => pc.Building? || pc.Cleared? || pc.Built?
    case Acquire(_, _) => pc.Idle? && s.lock.None?
    case CheckDrain(_) => pc.Locked? && NothingDrains(s)
    case Remove(_) => pc.Checked?
    case SoleOwner(_) => pc.Waiting? && !HeldByWalk(s, pc.m)
    case TimeOut(_) => pc.Waiting?
    case Load(_, _) => pc.Cleared? || pc == Drained(Inference)
    case Unload(_) => pc.Cleared? || pc == Drained(EraSwap)
    case Finish(_) => pc.Locked? || pc.Checked? || pc.Drained?
  }

  function At(s: State, t: nat, pc: Pc): State
    requires t < |s.threads|
  {
    s.(threads := s.threads[t := pc])
  }

  ghost function Step(s: State, a: Action): State
    requires Enabled(s, a)
  {
    var t, pc := a.t, s.threads[a.t];
    match a
    case Clone(_) => At(s, t, Walking(s.installed.value))
    case LetGo(_) => At(s, t, Idle)
    case SeeMissing(_) => At(s, t, WantBuild)
    case BeginBuild(_) => At(s, t, Building).(lock := Some(t))
    case CheckBuild(_) => At(s, t, Cleared).(draining := None)
    case Build(_, inPlace) =>
      At(s, t, Built(Miner(s.nextMiner, if inPlace then s.engine else None))).(nextMiner := s.nextMiner + 1)
    case Install(_) => At(s, t, Idle).(installed := Some(pc.m), lock := None)
    case AbandonBuild(_) => At(s, t, Idle).(lock := None)
    case Acquire(_, why) => At(s, t, Locked(why)).(lock := Some(t))
    case CheckDrain(_) => At(s, t, Checked(pc.why)).(draining := None)
    case Remove(_) =>
      At(s, t, if s.installed.Some? then Waiting(pc.why, s.installed.value) else Drained(pc.why)).(installed := None)
    case SoleOwner(_) => At(s, t, Drained(pc.why))
    case TimeOut(_) => At(s, t, Idle).(draining := Some(pc.m), lock := None)
    case Load(_, success) => s.(engine := if success then Some(s.nextLoad) else None, nextLoad := s.nextLoad + 1)
    case Unload(_) => s.(engine := None)
    case Finish(_) => At(s, t, Idle).(lock := None)
  }

  /** No load is numbered twice. */
  predicate LoadsFresh(s: State) {
    s.engine.Some? ==> s.engine.value < s.nextLoad
  }

  ghost predicate Start(s: State, workers: nat) {
    && s.workers == workers && s.installed.None? && s.draining.None? && s.lock.None? && LoadsFresh(s)
    && forall t :: 0 <= t < |s.threads| ==> s.threads[t].Idle?
  }

  /** `s` is reached from `first` by the actions in order. */
  ghost predicate Runs(first: State, actions: seq<Action>, s: State) {
    if actions == [] then s == first
    else
      var k := |actions| - 1;
      exists mid :: Runs(first, actions[..k], mid) && Enabled(mid, actions[k]) && s == Step(mid, actions[k])
  }

  // ---- the invariant ----

  /** The miner the lock holder has taken out of the map and waits for. */
  function Removed(s: State): Option<Miner> {
    if s.lock.Some? && s.lock.value < |s.threads| && s.threads[s.lock.value].Waiting? then Some(s.threads[s.lock.value].m) else None
  }

  /** The miner's weights are the ones the engine hosts. */
  predicate Backed(s: State, m: Miner) {
    m.over.Some? ==> s.engine == m.over
  }

  predicate ThreadOk(s: State, t: nat, pc: Pc) {
    && (HasLock(pc) <==> s.lock == Some(t))
    && (pc.Walking? ==> s.installed == Some(pc.m) || s.draining == Some(pc.m) || Removed(s) == Some(pc.m))
    && (pc.WantBuild? || pc.Building? || pc.Cleared? || pc.Built? ==> t < s.workers && s.installed.None?)
    && (pc.Cleared? || pc.Built? || pc.Checked? || pc.Waiting? || pc.Drained? ==> s.draining.None?)
    && (pc.Waiting? || pc.Drained? ==> s.installed.None?)
    && (pc.Built? || pc.Waiting? ==> Backed(s, pc.m))
  }

  ghost predicate Inv(s: State) {
    && (s.lock.Some? ==> s.lock.value < |s.threads|)
    && (s.draining.Some? ==> s.installed.None? && Backed(s, s.draining.value))
    && (s.installed.Some? ==> Backed(s, s.installed.value))
    && LoadsFresh(s)
    && forall t :: 0 <= t < |s.threads| ==> ThreadOk(s, t, s.threads[t])
  }

  lemma StartInv(s: State, workers: nat)
    requires Start(s, workers)
    ensures Inv(s)
  {}

  /** With at most one worker every step keeps the invariant. */
  lemma StepKeeps(s: State, a: Action)
    requires Inv(s) && Enabled(s, a) && s.workers <= 1
    ensures Inv(Step(s, a)) && Step(s, a).workers == s.workers
  {
    var s' := Step(s, a);
    assert ThreadOk(s, a.t, s.threads[a.t]);
    forall t | 0 <= t < |s'.threads|
      ensures ThreadOk(s', t, s'.threads[t])
    {
      assert ThreadOk(s, t, s.threads[t]);
      OthersKeep(s, a, t);
    }
  }

  lemma OthersKeep(s: State, a: Action, t: nat)
    requires Inv(s) && Enabled(s, a) && s.workers <= 1 && t < |s.threads|
    ensures t < |Step(s, a).threads| && ThreadOk(Step(s, a), t, Step(s, a).threads[t])
  {
    assert ThreadOk(s, a.t, s.threads[a.t]) && ThreadOk(s, t, s.threads[t]);
  }

  lemma {:induction false} RunsKeep(first: State, actions: seq<Action>, s: State)
    requires Start(first, first.workers) && first.workers <= 1 && Runs(first, actions, s)
    ensures Inv(s) && s.workers == first.workers
  {
    hide Inv, Step, Enabled;
    if actions == [] {
      StartInv(first, first.workers);
    } else {
      var k := |actions| - 1;
      var mid :| Runs(first, actions[..k], mid) && Enabled(mid, actions[k]) && s == Step(mid, actions[k]);
      RunsKeep(first, actions[..k], mid);
      StepKeeps(mid, actions[k]);
    }
  }

  // ---- safety ----

  /** Every walk reads weights that are still there. */
  ghost predicate Safe(s: State) {
    forall t :: 0 <= t < |s.threads| && s.threads[t].Walking? ==> Backed(s, s.threads[t].m)
  }

  lemma InvSafe(s: State)
    requires Inv(s)
    ensures Safe(s)
  {
    forall t | 0 <= t < |s.threads| && s.threads[t].Walking?
      ensures Backed(s, s.threads[t].m)
    {
      assert ThreadOk(s, t, s.threads[t]);
      if Removed(s).Some? { assert ThreadOk(s, s.lock.value, s.threads[s.lock.value]); }
    }
  }

  /** No thread holds a handle to any miner of the card, and none is kept anywhere. */
  ghost predicate NoHandle(s: State) {
    && s.installed.None? && s.draining.None?
    && forall t :: 0 <= t < |s.threads| ==> !s.threads[t].Walking? && !s.threads[t].Waiting? && !s.threads[t].Built?
  }

  /** In every interleaving with one worker, a load or unload that frees the engine's weights happens
      only when no handle to a miner of the card exists; and no other step touches them. */
  lemma FreedOnlyWithoutHandles(first: State, actions: seq<Action>, s: State, a: Action)
    requires Start(first, first.workers) && first.workers <= 1 && Runs(first, actions, s) && Enabled(s, a)
    requires s.engine.Some?
    ensures a.Load? || a.Unload? <==> Step(s, a).engine != s.engine
    ensures a.Load? || a.Unload? ==> NoHandle(s)
  {
    hide Runs;
    RunsKeep(first, actions, s);
    assert ThreadOk(s, a.t, s.threads[a.t]);
    forall t | 0 <= t < |s.threads| && (a.Load? || a.Unload?)
      ensures !s.threads[t].Walking? && !s.threads[t].Waiting? && !s.threads[t].Built?
    {
      assert ThreadOk(s, t, s.threads[t]);
    }
  }

  /** While a quarantined miner is held by its walk, no step frees weights, installs a miner, builds
      one or ends the quarantine, whoever takes it. */
  lemma QuarantineHolds(s: State, a: Action)
    requires Inv(s) && s.workers <= 1 && Enabled(s, a)
    requires s.draining.Some? && HeldByWalk(s, s.draining.value)
    ensures var s' := Step(s, a);
      s'.draining == s.draining && s'.engine == s.engine && s'.installed.None? && s'.nextMiner == s.nextMiner
  {
    assert ThreadOk(s, a.t, s.threads[a.t]);
  }

  /** A quarantine lasts as long as its walk, over any number of steps. */
  lemma {:induction false} QuarantineLasts(first: State, actions: seq<Action>, s: State, t: nat)
    requires Inv(first) && first.workers <= 1 && t < |first.threads|
    requires first.draining.Some? && first.threads[t] == Walking(first.draining.value)
    requires forall k :: 0 <= k < |actions| ==> actions[k] != LetGo(t)
    requires Runs(first, actions, s)
    ensures Inv(s) && s.workers == first.workers && s.draining == first.draining && s.engine == first.engine
    ensures t < |s.threads| && s.threads[t] == first.threads[t]
  {
    hide Inv, Step;
    if actions != [] {
      var k := |actions| - 1;
      var mid :| Runs(first, actions[..k], mid) && Enabled(mid, actions[k]) && s == Step(mid, actions[k]);
      QuarantineLasts(first, actions[..k], mid, t);
      assert HeldByWalk(mid, mid.draining.value);
      StepKeeps(mid, actions[k]);
      QuarantineHolds(mid, actions[k]);
      WalkStays(mid, actions[k], t);
    }
  }

  lemma WalkStays(s: State, a: Action, t: nat)
    requires Enabled(s, a) && t < |s.threads| && s.threads[t].Walking? && a != LetGo(t)
    ensures t < |Step(s, a).threads| && Step(s, a).threads[t] == s.threads[t]
  {}

  lemma RunsSnoc(first: State, actions: seq<Action>, s: State, a: Action)
    requires Runs(first, actions, s) && Enabled(s, a)
    ensures Runs(first, actions + [a], Step(s, a))
  {
    hide Enabled, Step;
    assert (actions + [a])[..|actions|] == actions;
  }

  ghost predicate Reachable(first: State, s: State) {
    exists actions :: Runs(first, actions, s)
  }

  /** One more step of a run. */
  ghost function Next(first: State, s: State, a: Action): (s': State)
    requires Reachable(first, s) && Enabled(s, a)
    ensures Reachable(first, s') && s' == Step(s, a)
  {
    hide Enabled, Step, Runs;
    var actions :| Runs(first, actions, s);
    RunsSnoc(first, actions, s, a);
    Step(s, a)
  }

  lemma ReachSelf(s: State)
    ensures Reachable(s, s)
  {
    assert Runs(s, [], s);
  }

  /** Once the stuck walk has let go, the worker can rebuild. */
  lemma QuarantineEnds(s: State, t: nat)
    requires t < |s.threads| && t < s.workers && s.threads[t].Idle? && s.lock.None?
    requires s.installed.None? && s.draining.Some? && !HeldByWalk(s, s.draining.value)
    ensures exists s' :: Reachable(s, s') && s'.draining.None? && s'.installed.Some?
  {
    hide Reachable, HeldByWalk;
    ReachSelf(s);
    var s1 := Next(s, s, SeeMissing(t));
    SameWalks(s, s1, t, s.draining.value);
    var s2 := Next(s, s1, BeginBuild(t));
    SameWalks(s1, s2, t, s.draining.value);
    var s3 := Next(s, s2, CheckBuild(t));
    var s4 := Next(s, s3, Build(t, false));
    var s5 := Next(s, s4, Install(t));
    assert s5.draining.None? && s5.installed.Some?;
  }

  lemma SameWalks(s: State, s': State, t: nat, m: Miner)
    requires t < |s.threads| && !HeldByWalk(s, m) && |s'.threads| == |s.threads|
    requires s'.threads == s.threads[t := s'.threads[t]] && !s'.threads[t].Walking?
    ensures !HeldByWalk(s', m)
  {}

  // ---- two workers ----

  function ThreeIdle(workers: nat): State {
    State([Idle, Idle, Idle], workers, None, None, None, None, 0, 0)
  }

  const FIRST: Miner := Miner(0, Some(0))
  const SECOND: Miner := Miner(1, Some(0))

  /** Both workers see no miner, and the first builds one. */
  lemma FirstBuilds(workers: nat)
    requires workers >= 2
    ensures Reachable(ThreeIdle(workers), State([Idle, WantBuild, Idle], workers, Some(FIRST), None, None, Some(0), 1, 1))
  {
    hide Reachable, HeldByWalk;
    var s0 := ThreeIdle(workers);
    ReachSelf(s0);
    var s1 := Next(s0, s0, SeeMissing(0));
    var s2 := Next(s0, s1, SeeMissing(1));
    var s3 := Next(s0, s2, BeginBuild(0));
    var s4 := Next(s0, s3, CheckBuild(0));
    var s5 := Next(s0, s4, Load(0, true));
    var s6 := Next(s0, s5, Build(0, true));
    var s7 := Next(s0, s6, Install(0));
    assert s7.threads == [Idle, WantBuild, Idle];
  }

  /** The first walks its miner while the second builds another over it in the map. */
  lemma SecondBuilds(s0: State, workers: nat)
    requires Reachable(s0, State([Idle, WantBuild, Idle], workers, Some(FIRST), None, None, Some(0), 1, 1))
    ensures Reachable(s0, State([Walking(FIRST), Idle, Idle], workers, Some(SECOND), None, None, Some(0), 1, 2))
  {
    hide Reachable, HeldByWalk;
    var s1 := Next(s0, State([Idle, WantBuild, Idle], workers, Some(FIRST), None, None, Some(0), 1, 1), Clone(0));
    var s2 := Next(s0, s1, BeginBuild(1));
    var s3 := Next(s0, s2, CheckBuild(1));
    var s4 := Next(s0, s3, Build(1, true));
    var s5 := Next(s0, s4, Install(1));
    assert s5.threads == [Walking(FIRST), Idle, Idle];
  }

  /** An inference drains only the second miner and loads its model under the first walk. */
  lemma InferenceFrees(s0: State, workers: nat)
    requires Reachable(s0, State([Walking(FIRST), Idle, Idle], workers, Some(SECOND), None, None, Some(0), 1, 2))
    ensures Reachable(s0, State([Walking(FIRST), Idle, Drained(Inference)], workers, None, None, Some(2), Some(1), 2, 2))
  {
    hide Reachable;
    var s := State([Walking(FIRST), Idle, Idle], workers, Some(SECOND), None, None, Some(0), 1, 2);
    var s1 := Next(s0, s, Acquire(2, Inference));
    var s2 := Next(s0, s1, CheckDrain(2));
    var s3 := Next(s0, s2, Remove(2));
    assert s3.threads == [Walking(FIRST), Idle, Waiting(Inference, SECOND)];
    var s4 := Next(s0, s3, SoleOwner(2));
    var s5 := Next(s0, s4, Load(2, true));
    assert s5.threads == [Walking(FIRST), Idle, Drained(Inference)];
  }

  lemma TwoWorkersUnsafe(workers: nat) returns (s: State)
    requires workers >= 2
    ensures Start(ThreeIdle(workers), workers) && Reachable(ThreeIdle(workers), s) && !Safe(s)
  {
    hide Reachable;
    FirstBuilds(workers);
    SecondBuilds(ThreeIdle(workers), workers);
    InferenceFrees(ThreeIdle(workers), workers);
    s := State([Walking(FIRST), Idle, Drained(Inference)], workers, None, None, Some(2), Some(1), 2, 2);
    assert s.threads[0].Walking? && !Backed(s, s.threads[0].m);
  }

  /** The protocol is safe in every interleaving if and only if the card has at most one worker. */
  lemma SafeIffOneWorker(workers: nat)
    ensures (forall first, s :: Start(first, workers) && Reachable(first, s) ==> Safe(s)) <==> workers <= 1
  {
    hide Runs, Start, Safe, Inv;
    if workers <= 1 {
      forall first, s | Start(first, workers) && Reachable(first, s)
        ensures Safe(s)
      {
        var actions :| Runs(first, actions, s);
        StartWorkers(first, workers);
        RunsKeep(first, actions, s);
        InvSafe(s);
      }
    } else {
      var s := TwoWorkersUnsafe(workers);
      assert Start(ThreeIdle(workers), workers) && Reachable(ThreeIdle(workers), s);
    }
  }

  lemma StartWorkers(s: State, workers: nat)
    requires Start(s, workers)
    ensures s.workers == workers
  {}
}
