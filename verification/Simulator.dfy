/** simulateDistribution as it runs: private copies of the staff, updated customer by customer. */
module Simulator {
  import opened Ordering
  import opened Routing
  import opened SmoothRoundRobin
  import opened LargestRemainder
  import opened Distribution
  import opened RealtimeRun
  import opened BatchRun

  class SimulationRun {
    const pool: Pool
    const mode: Mode
    const states: array<Staff>
    const batchQueue: array<QueueEntry>
    const wrr: WrrState

    ghost predicate Valid() {
      && wrr.Valid() && wrr.staffStates == states && wrr.totalWeight == TotalWeight(pool.weights)
      && (states as object) != batchQueue && (batchQueue as object) != wrr.currentWeights
    }

    ghost function Model(): (sim: Sim)
      requires Valid()
      reads states, batchQueue, wrr.currentWeights
      ensures ValidSim(sim)
    {
      Sim(states[..], wrr.currentWeights[..], batchQueue[..])
    }

    constructor (pool: Pool, mode: Mode, staffStates: array<Staff>, count: int)
      ensures Valid() && this.pool == pool && this.mode == mode
      ensures fresh(states) && fresh(batchQueue) && fresh(wrr.currentWeights)
      ensures Model() == Start(pool, mode, staffStates[..], count)
    {
      this.pool := pool;
      this.mode := mode;
      var copy := new Staff[staffStates.Length](i requires 0 <= i < staffStates.Length reads staffStates => staffStates[i]);
      assert copy[..] == staffStates[..];
      states := copy;
      var queue: seq<QueueEntry> := [];
      if mode.Batch? && pool.strategy.WeightedDistribution? {
        var plan := ComputeQuotaPlan(count, pool.weights, copy[..]);
        queue := PlanToQueue(plan);
      }
      batchQueue := new QueueEntry[|queue|](i requires 0 <= i < |queue| => queue[i]);
      wrr := new WrrState(copy, pool.weights);
      new;
      assert batchQueue[..] == queue;
    }

    /** Takes one unit from the first entry whose staff member can still be served. */
    method BatchPick() returns (chosen: Option<nat>)
      requires Valid()
      modifies batchQueue
      ensures var first := FirstUsable(old(batchQueue[..]), states[..], 0);
        && (first.None? ==> chosen.None? && batchQueue[..] == old(batchQueue[..]))
        && (first.Some? ==>
             var e := old(batchQueue[..])[first.value];
             && chosen == FindStaff(states[..], e.actorId, 0)
             && batchQueue[..] == old(batchQueue[..])[first.value := e.(remaining := e.remaining - 1)])
    {
      for k := 0 to batchQueue.Length
        invariant batchQueue[..] == old(batchQueue[..])
        invariant FirstUsable(batchQueue[..], states[..], 0) == FirstUsable(batchQueue[..], states[..], k)
      {
        var entry := batchQueue[k];
        if entry.remaining <= 0 { continue; }
        var s := FindStaff(states[..], entry.actorId, 0);
        if s.None? { continue; }
        if !states[s.value].online || AtCapacity(states[s.value]) || QuotaExhausted(states[s.value]) { continue; }
        batchQueue[k] := entry.(remaining := entry.remaining - 1);
        return s;
      }
      return None;
    }

    method AssignOneCustomer(customerIndex: int) returns (slot: Slot)
      requires Valid()
      modifies states, batchQueue, wrr.currentWeights
      ensures slot == SlotFor(pool, mode, old(Model()), customerIndex)
      ensures Model() == Advance(pool, mode, old(Model()))
    {
      var chosen: Option<nat> := None;
      if pool.strategy.SourceAllocation? {
        chosen := FirstOpen(states[..], 0);
        if chosen.None? {
          return Unassigned(customerIndex, AllStaffOffline);
        }
      } else {
        if TotalWeight(pool.weights) == 0 {
          return Unassigned(customerIndex, WeightZero);
        }
        if mode.Batch? && pool.strategy.WeightedDistribution? {
          chosen := BatchPick();
        } else if mode.Realtime? && pool.strategy.WeightedDistribution? {
          chosen := wrr.Next(pool.weights);
        }
        if chosen.None? {
          return Unassigned(customerIndex, Classify(states[..]));
        }
      }
      var s := states[chosen.value];
      states[chosen.value] := Served(s);
      return Assigned(customerIndex, s.actorId, s.role);
    }
  }

  /** Customer i of the run that began in `sim`. */
  method ServeCustomer(run: SimulationRun, i: nat, ghost sim: Sim) returns (slot: Slot)
    requires run.Valid() && ValidSim(sim) && run.Model() == After(run.pool, run.mode, sim, i)
    modifies run.states, run.batchQueue, run.wrr.currentWeights
    ensures run.Model() == After(run.pool, run.mode, sim, i + 1)
    ensures Slots(run.pool, run.mode, sim, i + 1) == Slots(run.pool, run.mode, sim, i) + [slot]
  {
    slot := run.AssignOneCustomer(i);
    SlotsExtend(run.pool, run.mode, sim, i + 1);
  }

  function Max0(n: int): nat {
    if n > 0 then n else 0
  }

  lemma NobodyYet(pool: Pool, mode: Mode, sim: Sim)
    requires ValidSim(sim)
    ensures Slots(pool, mode, sim, 0) == []
    ensures Assignments([]) == [] && Fallbacks([]) == []
    ensures After(pool, mode, sim, 0) == sim
  {
  }

  /** The loop over the customers. */
  method ServeAll(run: SimulationRun, count: int) returns (assignments: seq<Slot>, fallbackQueue: seq<Slot>, ghost slots: seq<Slot>)
    requires run.Valid()
    modifies run.states, run.batchQueue, run.wrr.currentWeights
    ensures slots == Slots(run.pool, run.mode, old(run.Model()), Max0(count))
    ensures assignments == Assignments(slots) && fallbackQueue == Fallbacks(slots)
    ensures run.Model() == After(run.pool, run.mode, old(run.Model()), Max0(count))
  {
    ghost var sim := run.Model();
    NobodyYet(run.pool, run.mode, sim);
    slots, assignments, fallbackQueue := [], [], [];
    var i := 0;
    while i < count
      invariant 0 <= i <= Max0(count)
      invariant run.Model() == After(run.pool, run.mode, sim, i)
      invariant slots == Slots(run.pool, run.mode, sim, i)
      invariant assignments == Assignments(slots) && fallbackQueue == Fallbacks(slots)
    {
      var slot := ServeCustomer(run, i, sim);
      OneMore(slots, slot);
      slots := slots + [slot];
      if slot.Assigned? {
        assignments := assignments + [slot];
      } else {
        fallbackQueue := fallbackQueue + [slot];
      }
      i := i + 1;
    }
  }

  /** The caller's staff array is not in the frame: the fixture is left as it was. */
  method SimulateDistribution(pool: Pool, staffStates: array<Staff>, count: int, mode: Mode)
    returns (assignments: seq<Slot>, fallbackQueue: seq<Slot>, finalStates: seq<Staff>)
    ensures var sim := Start(pool, mode, staffStates[..], count);
      var slots := Slots(pool, mode, sim, Max0(count));
      && assignments == Assignments(slots) && fallbackQueue == Fallbacks(slots)
      && finalStates == After(pool, mode, sim, Max0(count)).states
  {
    var run := new SimulationRun(pool, mode, staffStates, count);
    ghost var slots;
    assignments, fallbackQueue, slots := ServeAll(run, count);
    finalStates := run.states[..];
  }

  lemma OneMore(before: seq<Slot>, slot: Slot)
    ensures Assignments(before + [slot]) == Assignments(before) + (if slot.Assigned? then [slot] else [])
    ensures Fallbacks(before + [slot]) == Fallbacks(before) + (if slot.Assigned? then [] else [slot])
  {
    FilterConcat(IsAssigned, before, [slot]);
    FilterConcat(IsFallback, before, [slot]);
  }

  // ------------------------------------------------- the two modes agree on whole cycles

  lemma QuotaOfCycles(m: nat, W: int, weight: nat, baseCount: int)
    requires W > 0
    requires W * baseCount - W < (m * W) * weight < W * baseCount + W
    ensures baseCount == m * weight
  {
    var exact := m * weight;
    assert (m * W) * weight == W * exact;
    if baseCount > exact {
      ProductOrder(W, baseCount, exact + 1);
      ProductNext(W, exact);
      assert false;
    }
    if baseCount < exact {
      ProductOrder(W, exact, baseCount + 1);
      ProductNext(W, baseCount);
      assert false;
    }
  }

  lemma {:induction false} FilterKeepsTotal(p: Weight -> bool, weights: seq<Weight>)
    requires forall i :: 0 <= i < |weights| && weights[i].weight > 0 ==> p(weights[i])
    ensures TotalWeight(Filter(p, weights)) == TotalWeight(weights)
  {
    if weights != [] {
      FilterKeepsTotal(p, weights[1..]);
      var rest := Filter(p, weights[1..]);
      if p(weights[0]) {
        assert Filter(p, weights)[1..] == rest;
      } else {
        assert Filter(p, weights) == rest;
      }
    }
  }

  lemma RoomyAreEligible(pool: Pool, states: seq<Staff>, m: nat, k: nat)
    requires RoomyCycles(pool, states, m) && m > 0 && AllStaffed(states, pool.weights)
    requires DistinctWeights(pool.weights) && k < |pool.weights| && pool.weights[k].weight > 0
    ensures pool.weights[k].recipientActorId in EligibleIds(states)
  {
    var i :| 0 <= i < |states| && states[i].actorId == pool.weights[k].recipientActorId;
    WeightOfMember(pool.weights, k);
    ProductOrder(pool.weights[k].weight, m, 1);
    assert Headroom(states[i]) >= m * pool.weights[k].weight > 0;
    assert Eligible(states[i]) && states[i] in states;
  }

  lemma RoomyTotal(pool: Pool, states: seq<Staff>, m: nat)
    requires RoomyCycles(pool, states, m) && m > 0 && AllStaffed(states, pool.weights) && DistinctWeights(pool.weights)
    ensures Sum(WeightValues(EligibleWeights(pool.weights, states))) == TotalWeight(pool.weights)
  {
    var ids := EligibleIds(states);
    forall k | 0 <= k < |pool.weights| && pool.weights[k].weight > 0
      ensures pool.weights[k].recipientActorId in ids
    {
      RoomyAreEligible(pool, states, m, k);
    }
    FilterKeepsTotal((w: Weight) => w.recipientActorId in ids && w.weight > 0, pool.weights);
    TotalIsSum(EligibleWeights(pool.weights, states));
  }

  /** A plan for m whole cycles intends exactly m times the weight for everybody. */
  lemma PlanOfCycles(pool: Pool, states: seq<Staff>, m: nat, id: string)
    requires TotalWeight(pool.weights) > 0 && RoomyCycles(pool, states, m) && m > 0
    requires AllStaffed(states, pool.weights) && DistinctWeights(pool.weights)
    requires WeightOf(pool.weights, id) == 0 || exists k :: 0 <= k < |pool.weights| && pool.weights[k].recipientActorId == id
    ensures Planned(QuotaPlans(m * TotalWeight(pool.weights), pool.weights, states), id) == m * WeightOf(pool.weights, id)
  {
    var W := TotalWeight(pool.weights);
    var plans := QuotaPlans(m * W, pool.weights, states);
    RoomyTotal(pool, states, m);
    OpenTotals(m * W, pool.weights, states);
    PlannedFound(plans, id);
    if i :| 0 <= i < |plans| && plans[i].actorId == id && Planned(plans, id) == plans[i].baseCount {
      var w := QuotaRule(m * W, pool.weights, states, i);
      var k :| 0 <= k < |pool.weights| && pool.weights[k] == w;
      WeightOfMember(pool.weights, k);
      QuotaOfCycles(m, W, w.weight, plans[i].baseCount);
    } else if WeightOf(pool.weights, id) > 0 {
      var k :| 0 <= k < |pool.weights| && pool.weights[k].recipientActorId == id;
      WeightOfMember(pool.weights, k);
      RoomyAreEligible(pool, states, m, k);
      var at := EveryWeightPlanned(m * W, pool.weights, states, k);
      assert false;
    }
  }

  lemma EveryWeightPlanned(N: int, weights: seq<Weight>, states: seq<Staff>, k: nat) returns (i: nat)
    requires k < |weights| && weights[k].weight > 0 && weights[k].recipientActorId in EligibleIds(states)
    ensures i < |QuotaPlans(N, weights, states)| && QuotaPlans(N, weights, states)[i].actorId == weights[k].recipientActorId
  {
    assert weights[k] in EligibleWeights(weights, states);
    i := EligibleIsPlanned(N, weights, states, weights[k]);
  }

  lemma BatchOfCycles(pool: Pool, states: seq<Staff>, m: nat, i: nat)
    requires pool.strategy.WeightedDistribution? && TotalWeight(pool.weights) > 0 && i < |states|
    requires DistinctStaff(states) && DistinctWeights(pool.weights) && AllStaffed(states, pool.weights)
    requires RoomyCycles(pool, states, m) && m > 0
    ensures var count := m * TotalWeight(pool.weights);
      Gain(pool, Batch, Start(pool, Batch, states, count), count, i) == m * WeightOf(pool.weights, states[i].actorId)
  {
    var id := states[i].actorId;
    BatchClosedForm(pool, states, m * TotalWeight(pool.weights));
    if WeightOf(pool.weights, id) > 0 && forall k :: 0 <= k < |pool.weights| ==> pool.weights[k].recipientActorId != id {
      WeightOfAbsent(pool.weights, id);
      assert false;
    }
    PlanOfCycles(pool, states, m, id);
    ZeroTimes(m, WeightOf(pool.weights, id));
  }

  /** Everybody has m times its weight after m whole cycles. */
  ghost predicate ExactCycles(pool: Pool, mode: Mode, states: seq<Staff>, m: nat) {
    var count := m * TotalWeight(pool.weights);
    forall i :: 0 <= i < |states| ==>
      Gain(pool, mode, Start(pool, mode, states, count), count, i) == m * WeightOf(pool.weights, states[i].actorId)
  }

  lemma ExactNeedsRoom(pool: Pool, mode: Mode, states: seq<Staff>, m: nat)
    requires pool.strategy.WeightedDistribution? && ExactCycles(pool, mode, states, m)
    ensures RoomyCycles(pool, states, m)
  {
    CyclesNeedRoom(pool, mode, Start(pool, mode, states, m * TotalWeight(pool.weights)), m);
  }

  lemma NoCustomersExact(pool: Pool, mode: Mode, states: seq<Staff>)
    ensures ExactCycles(pool, mode, states, 0)
  {
  }

  lemma BatchExact(pool: Pool, states: seq<Staff>, m: nat)
    requires pool.strategy.WeightedDistribution? && TotalWeight(pool.weights) > 0
    requires DistinctStaff(states) && DistinctWeights(pool.weights) && AllStaffed(states, pool.weights)
    requires RoomyCycles(pool, states, m)
    ensures ExactCycles(pool, Batch, states, m)
  {
    if m == 0 {
      NoCustomersExact(pool, Batch, states);
    } else {
      var count := m * TotalWeight(pool.weights);
      forall i | 0 <= i < |states|
        ensures Gain(pool, Batch, Start(pool, Batch, states, count), count, i)
             == m * WeightOf(pool.weights, states[i].actorId)
      {
        BatchOfCycles(pool, states, m, i);
      }
    }
  }

  /** Whole cycles come out exactly, in realtime as in batch mode, exactly when everybody starts with room for its
      part: m times its weight. */
  lemma ModesAgreeOnCycles(pool: Pool, states: seq<Staff>, m: nat)
    requires pool.strategy.WeightedDistribution? && TotalWeight(pool.weights) > 0
    requires DistinctStaff(states) && DistinctWeights(pool.weights) && AllStaffed(states, pool.weights)
    ensures ExactCycles(pool, Realtime, states, m) <==> RoomyCycles(pool, states, m)
    ensures ExactCycles(pool, Batch, states, m) <==> RoomyCycles(pool, states, m)
  {
    RealtimeExact(pool, Start(pool, Realtime, states, m * TotalWeight(pool.weights)), m);
    if ExactCycles(pool, Batch, states, m) {
      ExactNeedsRoom(pool, Batch, states, m);
    }
    if RoomyCycles(pool, states, m) {
      BatchExact(pool, states, m);
    }
  }
}
