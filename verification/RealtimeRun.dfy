/** Realtime mode: a run of the simulator is a run of the smooth round-robin. */
module RealtimeRun {
  import opened Ordering
  import opened Routing
  import opened SmoothRoundRobin
  import opened Distribution

  /** A realtime run over a weighted pool, from fresh accumulators. */
  ghost predicate RealtimeStart(pool: Pool, sim: Sim) {
    && pool.strategy.WeightedDistribution? && TotalWeight(pool.weights) > 0
    && sim.acc == Zeros(|sim.states|)
  }

  /** Who was eligible before each of the first k picks. */
  function History(pool: Pool, sim: Sim, k: nat): (rounds: seq<seq<bool>>)
    requires ValidSim(sim)
    ensures |rounds| == k
    ensures forall t :: 0 <= t < k ==> rounds[t] == Flags(After(pool, Realtime, sim, t).states)
  {
    seq(k, t requires 0 <= t < k => Flags(After(pool, Realtime, sim, t).states))
  }

  function Shares(pool: Pool, sim: Sim): (w: seq<int>)
    ensures |w| == |sim.states|
  {
    StaffWeights(sim.states, pool.weights)
  }

  lemma SameShares(pool: Pool, sim: Sim, k: nat)
    requires ValidSim(sim)
    ensures StaffWeights(After(pool, Realtime, sim, k).states, pool.weights) == Shares(pool, sim)
  {
    forall i | 0 <= i < |sim.states|
      ensures After(pool, Realtime, sim, k).states[i].actorId == sim.states[i].actorId
    {
      CountersTogether(pool, Realtime, sim, k, i);
    }
  }

  lemma HistoryInit(pool: Pool, sim: Sim, k: nat)
    requires ValidSim(sim) && k > 0
    ensures History(pool, sim, k)[..k - 1] == History(pool, sim, k - 1)
    ensures Rounds(History(pool, sim, k), Shares(pool, sim))
  {
  }

  lemma AdvancePicks(pool: Pool, sim: Sim, next: Sim, shares: seq<int>, acc: seq<int>, later: seq<int>)
    requires ValidSim(sim) && pool.strategy.WeightedDistribution? && TotalWeight(pool.weights) > 0
    requires shares == StaffWeights(sim.states, pool.weights) && acc == sim.acc
    requires next == Advance(pool, Realtime, sim) && later == Pick(Flags(sim.states), shares, TotalWeight(pool.weights), acc).1
    ensures next.acc == later
  {
  }

  lemma ChoicePicks(pool: Pool, sim: Sim, shares: seq<int>, acc: seq<int>)
    requires ValidSim(sim) && pool.strategy.WeightedDistribution? && TotalWeight(pool.weights) > 0
    requires shares == StaffWeights(sim.states, pool.weights) && acc == sim.acc
    ensures |shares| == |sim.states|
    ensures Choose(pool, Realtime, sim).0 == Pick(Flags(sim.states), shares, TotalWeight(pool.weights), acc).0
  {
  }

  lemma HistoryPrefix(pool: Pool, sim: Sim, k: nat, t: nat)
    requires ValidSim(sim) && t < k
    ensures Rounds(History(pool, sim, k), Shares(pool, sim)) && Rounds(History(pool, sim, t), Shares(pool, sim))
    ensures Chosen(History(pool, sim, k), Shares(pool, sim), TotalWeight(pool.weights), t)
         == Pick(Flags(After(pool, Realtime, sim, t).states), Shares(pool, sim), TotalWeight(pool.weights),
                 Acc(History(pool, sim, t), Shares(pool, sim), TotalWeight(pool.weights))).0
  {
    assert History(pool, sim, k)[..t] == History(pool, sim, t);
  }

  lemma HistoryAcc(pool: Pool, sim: Sim, k: nat)
    requires ValidSim(sim) && k > 0
    ensures Rounds(History(pool, sim, k), Shares(pool, sim))
    ensures Acc(History(pool, sim, k), Shares(pool, sim), TotalWeight(pool.weights))
         == Pick(Flags(After(pool, Realtime, sim, k - 1).states), Shares(pool, sim), TotalWeight(pool.weights),
                 Acc(History(pool, sim, k - 1), Shares(pool, sim), TotalWeight(pool.weights))).1
  {
    HistoryInit(pool, sim, k);
  }

  /** The simulator's accumulators are those of the round-robin run over the eligibility history. */
  lemma {:induction false} AccumulatorsMatch(pool: Pool, sim: Sim, k: nat)
    requires ValidSim(sim) && RealtimeStart(pool, sim)
    ensures Rounds(History(pool, sim, k), Shares(pool, sim))
    ensures After(pool, Realtime, sim, k).acc == Acc(History(pool, sim, k), Shares(pool, sim), TotalWeight(pool.weights))
  {
    if k > 0 {
      AccumulatorsMatch(pool, sim, k - 1);
      HistoryAcc(pool, sim, k);
      SameShares(pool, sim, k - 1);
      AdvancePicks(pool, After(pool, Realtime, sim, k - 1), After(pool, Realtime, sim, k), Shares(pool, sim),
                   Acc(History(pool, sim, k - 1), Shares(pool, sim), TotalWeight(pool.weights)),
                   Acc(History(pool, sim, k), Shares(pool, sim), TotalWeight(pool.weights)));
    }
  }

  lemma ChoiceMatches(pool: Pool, sim: Sim, k: nat, t: nat)
    requires ValidSim(sim) && RealtimeStart(pool, sim) && t < k
    ensures Rounds(History(pool, sim, k), Shares(pool, sim))
    ensures Choose(pool, Realtime, After(pool, Realtime, sim, t)).0
         == Chosen(History(pool, sim, k), Shares(pool, sim), TotalWeight(pool.weights), t)
  {
    AccumulatorsMatch(pool, sim, t);
    SameShares(pool, sim, t);
    HistoryPrefix(pool, sim, k, t);
    ChoicePicks(pool, After(pool, Realtime, sim, t), Shares(pool, sim),
                Acc(History(pool, sim, t), Shares(pool, sim), TotalWeight(pool.weights)));
  }

  lemma {:induction false} GainIsWins(pool: Pool, sim: Sim, k: nat, i: nat)
    requires ValidSim(sim) && RealtimeStart(pool, sim) && i < |sim.states|
    ensures Rounds(History(pool, sim, k), Shares(pool, sim))
    ensures Gain(pool, Realtime, sim, k, i)
         == Wins(History(pool, sim, k), Shares(pool, sim), TotalWeight(pool.weights), i)
  {
    if k > 0 {
      GainIsWins(pool, sim, k - 1, i);
      HistoryInit(pool, sim, k);
      ChoiceMatches(pool, sim, k, k - 1);
      CountersTogether(pool, Realtime, sim, k, i);
    }
  }

  /** Whatever the gates do, a staff member's accumulator is its weight times the picks in which it was
      eligible, minus W for every customer it received; and the accumulators never total more than 0. */
  lemma RealtimeLedger(pool: Pool, sim: Sim, k: nat, i: nat)
    requires ValidSim(sim) && RealtimeStart(pool, sim) && i < |sim.states|
    ensures Rounds(History(pool, sim, k), Shares(pool, sim))
    ensures After(pool, Realtime, sim, k).acc[i]
         == Turns(History(pool, sim, k), Shares(pool, sim), i) * WeightOf(pool.weights, sim.states[i].actorId)
          - TotalWeight(pool.weights) * Gain(pool, Realtime, sim, k, i)
    ensures DistinctStaff(sim.states) && DistinctWeights(pool.weights) ==>
      Sum(After(pool, Realtime, sim, k).acc) <= 0
  {
    AccumulatorsMatch(pool, sim, k);
    GainIsWins(pool, sim, k, i);
    AccumulatorLaw(History(pool, sim, k), Shares(pool, sim), TotalWeight(pool.weights), i);
    if DistinctStaff(sim.states) && DistinctWeights(pool.weights) {
      StaffWeightsTotal(sim.states, pool.weights);
      TotalNeverPositive(History(pool, sim, k), Shares(pool, sim), TotalWeight(pool.weights));
    }
  }

  // -------------------------------------------------- everybody has room enough

  lemma HeadroomStep(pool: Pool, mode: Mode, sim: Sim, next: Sim, i: nat, picked: Option<nat>)
    requires ValidSim(sim) && i < |sim.states| && !pool.strategy.SourceAllocation?
    requires next == Advance(pool, mode, sim) && picked == Choose(pool, mode, sim).0
    ensures |next.states| == |sim.states|
    ensures Headroom(next.states[i]) == Headroom(sim.states[i]) - if picked == Some(i) then 1 else 0
  {
    ChosenOpen(pool, mode, sim);
    if picked == Some(i) {
      ServedHeadroom(sim.states[i]);
    }
  }

  lemma NextIsAdvance(pool: Pool, mode: Mode, sim: Sim, k: nat, n: nat)
    requires ValidSim(sim) && n == k + 1
    ensures After(pool, mode, sim, n) == Advance(pool, mode, After(pool, mode, sim, k))
  {
  }

  lemma GainNext(pool: Pool, mode: Mode, sim: Sim, k: nat, n: nat, i: nat, picked: Option<nat>)
    requires ValidSim(sim) && i < |sim.states| && n == k + 1
    requires picked == Choose(pool, mode, After(pool, mode, sim, k)).0
    ensures Gain(pool, mode, sim, n, i) == Gain(pool, mode, sim, k, i) + if picked == Some(i) then 1 else 0
  {
    CountersTogether(pool, mode, sim, n, i);
  }

  lemma RoomNext(pool: Pool, mode: Mode, sim: Sim, k: nat, n: nat, i: nat, picked: Option<nat>)
    requires ValidSim(sim) && i < |sim.states| && !pool.strategy.SourceAllocation? && n == k + 1
    requires picked == Choose(pool, mode, After(pool, mode, sim, k)).0
    ensures Headroom(After(pool, mode, sim, n).states[i])
         == Headroom(After(pool, mode, sim, k).states[i]) - if picked == Some(i) then 1 else 0
  {
    NextIsAdvance(pool, mode, sim, k, n);
    HeadroomStep(pool, mode, After(pool, mode, sim, k), After(pool, mode, sim, n), i, picked);
  }

  lemma HeadroomNext(pool: Pool, mode: Mode, sim: Sim, k: nat, n: nat, i: nat)
    requires ValidSim(sim) && i < |sim.states| && !pool.strategy.SourceAllocation? && n == k + 1
    ensures Headroom(After(pool, mode, sim, n).states[i]) + Gain(pool, mode, sim, n, i)
         == Headroom(After(pool, mode, sim, k).states[i]) + Gain(pool, mode, sim, k, i)
  {
    var picked := Choose(pool, mode, After(pool, mode, sim, k)).0;
    GainNext(pool, mode, sim, k, n, i, picked);
    RoomNext(pool, mode, sim, k, n, i, picked);
  }

  /** Outside source allocation every customer received uses up one unit of headroom. */
  lemma {:induction false} HeadroomSpent(pool: Pool, mode: Mode, sim: Sim, k: nat, i: nat)
    requires ValidSim(sim) && i < |sim.states| && !pool.strategy.SourceAllocation?
    ensures Headroom(After(pool, mode, sim, k).states[i]) == Headroom(sim.states[i]) - Gain(pool, mode, sim, k, i)
  {
    if k > 0 {
      var before := k - 1;
      HeadroomSpent(pool, mode, sim, before, i);
      HeadroomNext(pool, mode, sim, before, k, i);
    }
  }

  lemma GainNeedsRoom(pool: Pool, mode: Mode, sim: Sim, k: nat, i: nat)
    requires ValidSim(sim) && i < |sim.states| && !pool.strategy.SourceAllocation?
    ensures Headroom(sim.states[i]) >= Gain(pool, mode, sim, k, i)
  {
    HeadroomSpent(pool, mode, sim, k, i);
  }

  // -------------------------------------------------- against the run without gates

  function Everyone(n: nat): (flags: seq<bool>)
    ensures |flags| == n && forall i :: 0 <= i < n ==> flags[i]
  {
    seq(n, _ => true)
  }

  /** How many of the first k customers staff member i gets when everybody is eligible throughout. */
  function FreeWins(w: seq<int>, W: int, k: nat, i: nat): nat {
    Wins(Steady(Everyone(|w|), k), w, W, i)
  }

  function FreeAcc(w: seq<int>, W: int, k: nat): (acc: seq<int>)
    ensures |acc| == |w|
  {
    SteadyAcc(Everyone(|w|), w, W, k)
  }

  function FreeChoice(w: seq<int>, W: int, k: nat): Option<nat> {
    SteadyChoice(Everyone(|w|), w, W, k)
  }

  lemma FreeNext(w: seq<int>, W: int, k: nat, n: nat, i: nat, picked: Option<nat>)
    requires n == k + 1 && picked == FreeChoice(w, W, k)
    ensures FreeWins(w, W, n, i) == FreeWins(w, W, k, i) + if picked == Some(i) then 1 else 0
  {
    assert Steady(Everyone(|w|), n)[..k] == Steady(Everyone(|w|), k);
    SteadyAccIsAcc(Everyone(|w|), w, W, k);
  }

  lemma FreeServes(w: seq<int>, W: int, k: nat)
    requires Weights(w, W)
    ensures FreeChoice(w, W, k).Some? && FreeChoice(w, W, k).value < |w|
  {
    assert Steady(Everyone(|w|), k + 1)[..k] == Steady(Everyone(|w|), k);
    SteadyAccIsAcc(Everyone(|w|), w, W, k);
    FullRunServes(Steady(Everyone(|w|), k + 1), w, W, k);
  }

  /** Where the accumulators of the eligible agree, the best of all, if eligible, is the best of the eligible. */
  lemma PickAmong(flags: seq<bool>, w: seq<int>, W: int, acc: seq<int>, full: seq<int>, b: nat)
    requires |flags| == |w| == |acc| == |full| && b < |w| && flags[b]
    requires forall i :: 0 <= i < |w| && flags[i] ==> acc[i] == full[i]
    requires Pick(Everyone(|w|), w, W, full).0 == Some(b)
    ensures Pick(flags, w, W, acc).0 == Some(b)
    ensures forall i :: 0 <= i < |w| && flags[i] ==>
      Pick(flags, w, W, acc).1[i] == Pick(Everyone(|w|), w, W, full).1[i]
  {
    FirstBestUnique(flags, Bump(acc, flags, w), b);
  }

  /** The accumulators of the eligible are these. */
  ghost predicate Tracks(sim: Sim, full: seq<int>) {
    && |sim.acc| == |sim.states| == |full|
    && forall i :: 0 <= i < |full| && Eligible(sim.states[i]) ==> sim.acc[i] == full[i]
  }

  lemma TracksOn(pool: Pool, now: Sim, w: seq<int>, full: seq<int>, b: nat)
    requires pool.strategy.WeightedDistribution? && TotalWeight(pool.weights) > 0 && Tracks(now, full)
    requires w == StaffWeights(now.states, pool.weights) && b < |w| && Eligible(now.states[b])
    requires Pick(Everyone(|w|), w, TotalWeight(pool.weights), full).0 == Some(b)
    ensures Choose(pool, Realtime, now).0 == Some(b)
    ensures Tracks(Advance(pool, Realtime, now), Pick(Everyone(|w|), w, TotalWeight(pool.weights), full).1)
  {
    PickAmong(Flags(now.states), w, TotalWeight(pool.weights), now.acc, full, b);
    ChoicePicks(pool, now, w, now.acc);
    AdvancePicks(pool, now, Advance(pool, Realtime, now), w, now.acc,
                 Pick(Flags(now.states), w, TotalWeight(pool.weights), now.acc).1);
    assert Eligible(Served(now.states[b])) ==> Eligible(now.states[b]);
  }

  /** Checkable before the run: everybody has room for what the run without gates would hand it. */
  ghost predicate RoomForFree(pool: Pool, sim: Sim, k: nat) {
    forall i :: 0 <= i < |sim.states| ==>
      Headroom(sim.states[i]) >= FreeWins(Shares(pool, sim), TotalWeight(pool.weights), k, i)
  }

  /** The first k customers go to whom they would go to without gates. */
  ghost predicate FollowsFree(pool: Pool, sim: Sim, k: nat)
    requires ValidSim(sim)
  {
    && Tracks(After(pool, Realtime, sim, k), FreeAcc(Shares(pool, sim), TotalWeight(pool.weights), k))
    && forall i :: 0 <= i < |sim.states| ==>
         Gain(pool, Realtime, sim, k, i) == FreeWins(Shares(pool, sim), TotalWeight(pool.weights), k, i)
  }

  lemma FreeChoiceIsOpen(pool: Pool, sim: Sim, k: nat, n: nat, b: nat)
    requires ValidSim(sim) && RealtimeStart(pool, sim) && b < |sim.states| && n == k + 1
    requires RoomForFree(pool, sim, n) && FollowsFree(pool, sim, k)
    requires FreeChoice(Shares(pool, sim), TotalWeight(pool.weights), k) == Some(b)
    ensures Eligible(After(pool, Realtime, sim, k).states[b])
  {
    HeadroomSpent(pool, Realtime, sim, k, b);
    FreeNext(Shares(pool, sim), TotalWeight(pool.weights), k, n, b, Some(b));
  }

  lemma GainFollows(pool: Pool, sim: Sim, k: nat, n: nat, i: nat, picked: Option<nat>)
    requires ValidSim(sim) && i < |sim.states| && n == k + 1
    requires picked == Choose(pool, Realtime, After(pool, Realtime, sim, k)).0
    requires picked == FreeChoice(Shares(pool, sim), TotalWeight(pool.weights), k)
    requires Gain(pool, Realtime, sim, k, i) == FreeWins(Shares(pool, sim), TotalWeight(pool.weights), k, i)
    ensures Gain(pool, Realtime, sim, n, i) == FreeWins(Shares(pool, sim), TotalWeight(pool.weights), n, i)
  {
    GainNext(pool, Realtime, sim, k, n, i, picked);
    FreeNext(Shares(pool, sim), TotalWeight(pool.weights), k, n, i, picked);
  }

  /** The next customer goes to whom it would go to without gates. */
  lemma ChoiceFollows(pool: Pool, sim: Sim, k: nat, n: nat) returns (picked: Option<nat>)
    requires ValidSim(sim) && RealtimeStart(pool, sim) && Weights(Shares(pool, sim), TotalWeight(pool.weights))
    requires n == k + 1 && RoomForFree(pool, sim, n) && FollowsFree(pool, sim, k)
    ensures picked.Some? && picked == Choose(pool, Realtime, After(pool, Realtime, sim, k)).0
    ensures picked == FreeChoice(Shares(pool, sim), TotalWeight(pool.weights), k)
    ensures Tracks(After(pool, Realtime, sim, n), FreeAcc(Shares(pool, sim), TotalWeight(pool.weights), n))
  {
    var w, W := Shares(pool, sim), TotalWeight(pool.weights);
    FreeServes(w, W, k);
    picked := FreeChoice(w, W, k);
    FreeChoiceIsOpen(pool, sim, k, n, picked.value);
    SameShares(pool, sim, k);
    TracksOn(pool, After(pool, Realtime, sim, k), w, FreeAcc(w, W, k), picked.value);
  }

  lemma FollowsNext(pool: Pool, sim: Sim, k: nat, n: nat)
    requires ValidSim(sim) && RealtimeStart(pool, sim) && Weights(Shares(pool, sim), TotalWeight(pool.weights))
    requires n == k + 1 && RoomForFree(pool, sim, n) && FollowsFree(pool, sim, k)
    ensures FollowsFree(pool, sim, n)
  {
    var picked := ChoiceFollows(pool, sim, k, n);
    forall i | 0 <= i < |sim.states|
      ensures Gain(pool, Realtime, sim, n, i) == FreeWins(Shares(pool, sim), TotalWeight(pool.weights), n, i)
    {
      GainFollows(pool, sim, k, n, i, picked);
    }
  }

  lemma {:induction false} FreeGrows(w: seq<int>, W: int, t: nat, k: nat, i: nat)
    requires t <= k
    ensures FreeWins(w, W, t, i) <= FreeWins(w, W, k, i)
  {
    if t < k {
      var before := k - 1;
      FreeGrows(w, W, t, before, i);
      FreeNext(w, W, before, k, i, FreeChoice(w, W, before));
    }
  }

  lemma RoomEarlier(pool: Pool, sim: Sim, t: nat, k: nat)
    requires t <= k && RoomForFree(pool, sim, k)
    ensures RoomForFree(pool, sim, t)
  {
    forall i | 0 <= i < |sim.states|
      ensures Headroom(sim.states[i]) >= FreeWins(Shares(pool, sim), TotalWeight(pool.weights), t, i)
    {
      FreeGrows(Shares(pool, sim), TotalWeight(pool.weights), t, k, i);
    }
  }

  lemma {:induction false} FollowsThroughout(pool: Pool, sim: Sim, k: nat)
    requires ValidSim(sim) && RealtimeStart(pool, sim) && Weights(Shares(pool, sim), TotalWeight(pool.weights))
    requires RoomForFree(pool, sim, k)
    ensures FollowsFree(pool, sim, k)
  {
    if k > 0 {
      var before := k - 1;
      RoomEarlier(pool, sim, before, k);
      FollowsThroughout(pool, sim, before);
      FollowsNext(pool, sim, before, k);
    }
  }

  lemma ServesThroughout(pool: Pool, sim: Sim, t: nat, k: nat)
    requires ValidSim(sim) && RealtimeStart(pool, sim) && Weights(Shares(pool, sim), TotalWeight(pool.weights))
    requires RoomForFree(pool, sim, k) && t < k
    ensures Choose(pool, Realtime, After(pool, Realtime, sim, t)).0.Some?
  {
    RoomEarlier(pool, sim, t, k);
    RoomEarlier(pool, sim, t + 1, k);
    FollowsThroughout(pool, sim, t);
    var picked := ChoiceFollows(pool, sim, t, t + 1);
  }

  /** The gates leave a run alone exactly when everybody starts with room for what the run without gates hands it. */
  lemma GatesLeaveAlone(pool: Pool, sim: Sim, k: nat)
    requires ValidSim(sim) && RealtimeStart(pool, sim)
    requires DistinctStaff(sim.states) && DistinctWeights(pool.weights) && AllStaffed(sim.states, pool.weights)
    ensures RoomForFree(pool, sim, k) <==>
      forall i :: 0 <= i < |sim.states| ==>
        Gain(pool, Realtime, sim, k, i) == FreeWins(Shares(pool, sim), TotalWeight(pool.weights), k, i)
    ensures RoomForFree(pool, sim, k) ==> forall t :: 0 <= t < k ==> Slots(pool, Realtime, sim, k)[t].Assigned?
  {
    StaffWeightsTotal(sim.states, pool.weights);
    if RoomForFree(pool, sim, k) {
      FollowsThroughout(pool, sim, k);
      forall t | 0 <= t < k
        ensures Slots(pool, Realtime, sim, k)[t].Assigned?
      {
        ServesThroughout(pool, sim, t, k);
      }
    }
    forall i | 0 <= i < |sim.states|
      ensures Headroom(sim.states[i]) >= Gain(pool, Realtime, sim, k, i)
    {
      GainNeedsRoom(pool, Realtime, sim, k, i);
    }
  }

  // -------------------------------------------------- everybody has room enough

  /** Every weighted staff member has room for its share of k, rounded up. */
  ghost predicate Roomy(pool: Pool, sim: Sim, k: nat)
    requires TotalWeight(pool.weights) > 0
  {
    forall i :: 0 <= i < |sim.states| && WeightOf(pool.weights, sim.states[i].actorId) > 0 ==>
      Headroom(sim.states[i]) >= CeilDiv(k * WeightOf(pool.weights, sim.states[i].actorId), TotalWeight(pool.weights))
  }

  lemma RoomyIsEnough(pool: Pool, sim: Sim, k: nat)
    requires TotalWeight(pool.weights) > 0 && Roomy(pool, sim, k)
    requires Weights(Shares(pool, sim), TotalWeight(pool.weights))
    ensures RoomForFree(pool, sim, k)
  {
    var w, W := Shares(pool, sim), TotalWeight(pool.weights);
    forall i | 0 <= i < |sim.states|
      ensures Headroom(sim.states[i]) >= FreeWins(w, W, k, i)
    {
    ShareBound(Steady(Everyone(|w|), k), w, W, i);
    }
  }

  /** With room enough, nobody ever gets more than its share of the customers so far, rounded up,
      nobody of weight 0 gets any, and nobody falls back. */
  lemma RealtimeShares(pool: Pool, sim: Sim, k: nat, i: nat)
    requires ValidSim(sim) && RealtimeStart(pool, sim) && Roomy(pool, sim, k) && i < |sim.states|
    requires DistinctStaff(sim.states) && DistinctWeights(pool.weights) && AllStaffed(sim.states, pool.weights)
    ensures Gain(pool, Realtime, sim, k, i)
         <= CeilDiv(k * WeightOf(pool.weights, sim.states[i].actorId), TotalWeight(pool.weights))
    ensures WeightOf(pool.weights, sim.states[i].actorId) == 0 ==> Gain(pool, Realtime, sim, k, i) == 0
    ensures forall t :: 0 <= t < k ==> Slots(pool, Realtime, sim, k)[t].Assigned?
  {
    var w, W := Shares(pool, sim), TotalWeight(pool.weights);
    StaffWeightsTotal(sim.states, pool.weights);
    RoomyIsEnough(pool, sim, k);
    GatesLeaveAlone(pool, sim, k);
    ShareBound(Steady(Everyone(|w|), k), w, W, i);
  }

  /** Room for m whole cycles: m*w for every weighted staff member. */
  ghost predicate RoomyCycles(pool: Pool, states: seq<Staff>, m: nat) {
    forall i :: 0 <= i < |states| && WeightOf(pool.weights, states[i].actorId) > 0 ==>
      Headroom(states[i]) >= m * WeightOf(pool.weights, states[i].actorId)
  }

  lemma ZeroTimes(m: nat, w: nat)
    ensures w == 0 ==> m * w == 0
  {
  }

  lemma FreeCycles(w: seq<int>, W: int, m: nat, i: nat)
    requires Weights(w, W) && i < |w|
    ensures m * W >= 0 && FreeWins(w, W, m * W, i) == m * w[i]
  {
    ExactShares(Steady(Everyone(|w|), m * W), w, W, m);
  }

  lemma RoomyCyclesIsRoom(pool: Pool, sim: Sim, m: nat)
    requires Weights(Shares(pool, sim), TotalWeight(pool.weights))
    ensures RoomyCycles(pool, sim.states, m) <==> RoomForFree(pool, sim, m * TotalWeight(pool.weights))
  {
    forall i | 0 <= i < |sim.states|
      ensures FreeWins(Shares(pool, sim), TotalWeight(pool.weights), m * TotalWeight(pool.weights), i)
           == m * WeightOf(pool.weights, sim.states[i].actorId)
      ensures WeightOf(pool.weights, sim.states[i].actorId) == 0 ==>
        m * WeightOf(pool.weights, sim.states[i].actorId) == 0
    {
      FreeCycles(Shares(pool, sim), TotalWeight(pool.weights), m, i);
      ZeroTimes(m, WeightOf(pool.weights, sim.states[i].actorId));
    }
  }

  lemma CyclesNeedRoom(pool: Pool, mode: Mode, sim: Sim, m: nat)
    requires ValidSim(sim) && !pool.strategy.SourceAllocation?
    requires forall i :: 0 <= i < |sim.states| ==>
      Gain(pool, mode, sim, m * TotalWeight(pool.weights), i) == m * WeightOf(pool.weights, sim.states[i].actorId)
    ensures RoomyCycles(pool, sim.states, m)
  {
    forall i | 0 <= i < |sim.states|
      ensures Headroom(sim.states[i]) >= m * WeightOf(pool.weights, sim.states[i].actorId)
    {
      GainNeedsRoom(pool, mode, sim, m * TotalWeight(pool.weights), i);
    }
  }

  /** After m whole cycles everybody has received exactly m times its weight, exactly when everybody had room for it. */
  lemma RealtimeExact(pool: Pool, sim: Sim, m: nat)
    requires ValidSim(sim) && RealtimeStart(pool, sim)
    requires DistinctStaff(sim.states) && DistinctWeights(pool.weights) && AllStaffed(sim.states, pool.weights)
    ensures RoomyCycles(pool, sim.states, m) <==>
      forall i :: 0 <= i < |sim.states| ==>
        Gain(pool, Realtime, sim, m * TotalWeight(pool.weights), i) == m * WeightOf(pool.weights, sim.states[i].actorId)
  {
    StaffWeightsTotal(sim.states, pool.weights);
    RoomyCyclesIsRoom(pool, sim, m);
    GatesLeaveAlone(pool, sim, m * TotalWeight(pool.weights));
    forall i | 0 <= i < |sim.states|
      ensures FreeWins(Shares(pool, sim), TotalWeight(pool.weights), m * TotalWeight(pool.weights), i)
           == m * WeightOf(pool.weights, sim.states[i].actorId)
    {
      FreeCycles(Shares(pool, sim), TotalWeight(pool.weights), m, i);
    }
  }
}
