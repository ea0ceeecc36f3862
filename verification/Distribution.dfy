/** The simulator: assigning customers one by one, and what a whole run adds up to. */
module Distribution {
  import opened Ordering
  import opened Routing
  import opened SmoothRoundRobin
  import opened LargestRemainder

  datatype Strategy = SourceAllocation | WeightedDistribution | Hybrid
  datatype Mode = Batch | Realtime

  datatype FallbackReason =
    | AllStaffOffline
    | AllStaffAtCapacity
    | AllStaffQuotaExhausted
    | NoEligibleWeight
    | WeightZero

  datatype Slot =
    | Assigned(customerIndex: int, staffActorId: string, staffRole: string)
    | Unassigned(customerIndex: int, reason: FallbackReason)

  datatype QueueEntry = QueueEntry(actorId: string, remaining: int)

  /** A pool without weights is a pool with no entries. */
  datatype Pool = Pool(strategy: Strategy, weights: seq<Weight>)

  /** Everything one simulation updates. */
  datatype Sim = Sim(states: seq<Staff>, acc: seq<int>, queue: seq<QueueEntry>)

  ghost predicate ValidSim(sim: Sim) {
    |sim.acc| == |sim.states|
  }

  // ---------------------------------------------------------------- choosing

  function FindStaff(states: seq<Staff>, id: string, from: nat): (r: Option<nat>)
    requires from <= |states|
    ensures r.Some? ==> from <= r.value < |states| && states[r.value].actorId == id
    ensures r.Some? ==> forall i :: from <= i < r.value ==> states[i].actorId != id
    ensures r.None? ==> forall i :: from <= i < |states| ==> states[i].actorId != id
    decreases |states| - from
  {
    if from == |states| then None
    else if states[from].actorId == id then Some(from)
    else FindStaff(states, id, from + 1)
  }

  predicate Usable(e: QueueEntry, states: seq<Staff>) {
    e.remaining > 0 &&
    var s := FindStaff(states, e.actorId, 0);
    s.Some? && Eligible(states[s.value])
  }

  function FirstUsable(queue: seq<QueueEntry>, states: seq<Staff>, from: nat): (r: Option<nat>)
    requires from <= |queue|
    ensures r.Some? ==> from <= r.value < |queue| && Usable(queue[r.value], states)
    ensures r.Some? ==> forall k :: from <= k < r.value ==> !Usable(queue[k], states)
    ensures r.None? ==> forall k :: from <= k < |queue| ==> !Usable(queue[k], states)
    decreases |queue| - from
  {
    if from == |queue| then None
    else if Usable(queue[from], states) then Some(from)
    else FirstUsable(queue, states, from + 1)
  }

  predicate SourceOpen(s: Staff) {
    s.online && !AtCapacity(s)
  }

  function FirstOpen(states: seq<Staff>, from: nat): (r: Option<nat>)
    requires from <= |states|
    ensures r.Some? ==> from <= r.value < |states| && SourceOpen(states[r.value])
    ensures r.Some? ==> forall i :: from <= i < r.value ==> !SourceOpen(states[i])
    ensures r.None? ==> forall i :: from <= i < |states| ==> !SourceOpen(states[i])
    decreases |states| - from
  {
    if from == |states| then None
    else if SourceOpen(states[from]) then Some(from)
    else FirstOpen(states, from + 1)
  }

  function WrrChoice(pool: Pool, sim: Sim): (r: (Option<nat>, seq<int>))
    requires ValidSim(sim)
    ensures |r.1| == |sim.acc|
    ensures r.0.Some? ==> r.0.value < |sim.states| && Eligible(sim.states[r.0.value])
    ensures r.0.None? ==> r.1 == sim.acc
  {
    Pick(Flags(sim.states), StaffWeights(sim.states, pool.weights), TotalWeight(pool.weights), sim.acc)
  }

  /** Who serves the next customer, and the run's books after choosing (before serving). */
  function Choose(pool: Pool, mode: Mode, sim: Sim): (r: (Option<nat>, Sim))
    requires ValidSim(sim)
    ensures r.0.Some? ==> r.0.value < |sim.states|
    ensures r.1.states == sim.states && ValidSim(r.1)
    ensures r.0.None? ==> r.1 == sim
  {
    if pool.strategy.SourceAllocation? then (FirstOpen(sim.states, 0), sim)
    else if TotalWeight(pool.weights) == 0 || pool.strategy.Hybrid? then (None, sim)
    else if mode.Batch? then
      match FirstUsable(sim.queue, sim.states, 0)
      case None => (None, sim)
      case Some(k) =>
        var entry := sim.queue[k];
        (FindStaff(sim.states, entry.actorId, 0),
         sim.(queue := sim.queue[k := entry.(remaining := entry.remaining - 1)]))
    else
      var (picked, acc) := WrrChoice(pool, sim);
      (picked, sim.(acc := acc))
  }

  function Classify(states: seq<Staff>): FallbackReason {
    if forall s :: s in states ==> !s.online then AllStaffOffline
    else if forall s :: s in states ==> !(s.online && !AtCapacity(s)) then AllStaffAtCapacity
    else if forall s :: s in states ==> !(s.online && !QuotaExhausted(s)) then AllStaffQuotaExhausted
    else NoEligibleWeight
  }

  function Reason(pool: Pool, sim: Sim): FallbackReason {
    if pool.strategy.SourceAllocation? then AllStaffOffline
    else if TotalWeight(pool.weights) == 0 then WeightZero
    else Classify(sim.states)
  }

  // ---------------------------------------------------------------- one customer

  function Advance(pool: Pool, mode: Mode, sim: Sim): (r: Sim)
    requires ValidSim(sim)
    ensures ValidSim(r) && |r.states| == |sim.states|
  {
    var (picked, next) := Choose(pool, mode, sim);
    match picked
    case None => next
    case Some(i) => next.(states := next.states[i := Served(next.states[i])])
  }

  function SlotFor(pool: Pool, mode: Mode, sim: Sim, customerIndex: int): Slot
    requires ValidSim(sim)
  {
    match Choose(pool, mode, sim).0
    case None => Unassigned(customerIndex, Reason(pool, sim))
    case Some(i) => Assigned(customerIndex, sim.states[i].actorId, sim.states[i].role)
  }

  // ---------------------------------------------------------------- a whole run

  function PlanToQueue(plans: seq<QuotaPlan>): seq<QueueEntry> {
    Sort(Map((p: QuotaPlan) => QueueEntry(p.actorId, p.baseCount), plans),
         (a: QueueEntry, b: QueueEntry) => AtMost(a.actorId, b.actorId))
  }

  function Start(pool: Pool, mode: Mode, states: seq<Staff>, count: int): (sim: Sim)
    ensures ValidSim(sim) && sim.states == states
  {
    Sim(states, Zeros(|states|),
        if mode.Batch? && pool.strategy.WeightedDistribution?
        then PlanToQueue(QuotaPlans(count, pool.weights, states)) else [])
  }

  function After(pool: Pool, mode: Mode, sim: Sim, k: nat): (r: Sim)
    requires ValidSim(sim)
    ensures ValidSim(r) && |r.states| == |sim.states|
  {
    if k == 0 then sim else Advance(pool, mode, After(pool, mode, sim, k - 1))
  }

  /** The slots of the first k customers, in order. */
  function Slots(pool: Pool, mode: Mode, sim: Sim, k: nat): (slots: seq<Slot>)
    requires ValidSim(sim)
    ensures |slots| == k
    ensures forall t :: 0 <= t < k ==> slots[t] == SlotFor(pool, mode, After(pool, mode, sim, t), t)
  {
    seq(k, t requires 0 <= t < k => SlotFor(pool, mode, After(pool, mode, sim, t), t))
  }

  lemma SlotsInit(pool: Pool, mode: Mode, sim: Sim, k: nat)
    requires ValidSim(sim) && k > 0
    ensures Slots(pool, mode, sim, k)[..k - 1] == Slots(pool, mode, sim, k - 1)
  {
  }

  lemma SlotsExtend(pool: Pool, mode: Mode, sim: Sim, k: nat)
    requires ValidSim(sim) && k > 0
    ensures Slots(pool, mode, sim, k)
         == Slots(pool, mode, sim, k - 1) + [SlotFor(pool, mode, After(pool, mode, sim, k - 1), k - 1)]
  {
    SlotsInit(pool, mode, sim, k);
    SplitLast(Slots(pool, mode, sim, k));
  }

  lemma SplitLast<T>(s: seq<T>)
    requires s != []
    ensures s == s[..|s| - 1] + [s[|s| - 1]]
  {
  }

  predicate IsAssigned(s: Slot) {
    s.Assigned?
  }

  predicate IsFallback(s: Slot) {
    !s.Assigned?
  }

  function Assignments(slots: seq<Slot>): seq<Slot> {
    Filter(IsAssigned, slots)
  }

  function Fallbacks(slots: seq<Slot>): seq<Slot> {
    Filter(IsFallback, slots)
  }

  // ------------------------------------------------- fallback is a final suffix

  lemma {:induction false} StuckForever(pool: Pool, mode: Mode, sim: Sim, t: nat, u: nat)
    requires ValidSim(sim) && t <= u
    requires Choose(pool, mode, After(pool, mode, sim, t)).0.None?
    ensures After(pool, mode, sim, u) == After(pool, mode, sim, t)
  {
    if t < u {
      StuckForever(pool, mode, sim, t, u - 1);
    }
  }

  /** Once a customer falls back, every later one does, for the same reason. */
  lemma FallbackIsFinal(pool: Pool, mode: Mode, sim: Sim, k: nat, t: nat, u: nat)
    requires ValidSim(sim) && t <= u < k
    requires Slots(pool, mode, sim, k)[t].Unassigned?
    ensures Slots(pool, mode, sim, k)[u] == Unassigned(u, Slots(pool, mode, sim, k)[t].reason)
  {
    StuckForever(pool, mode, sim, t, u);
  }

  /** Where p holds first and q everywhere after, the two filters cut s in two. */
  lemma {:induction false} SplitAtFirst<T>(p: T -> bool, q: T -> bool, s: seq<T>)
    requires forall i :: 0 <= i < |s| ==> q(s[i]) == !p(s[i])
    requires forall i, j :: 0 <= i < j < |s| && !p(s[i]) ==> !p(s[j])
    ensures Filter(p, s) + Filter(q, s) == s
  {
    if s != [] {
      if p(s[0]) {
        SplitAtFirst(p, q, s[1..]);
        Reattach(s[0], Filter(p, s[1..]), Filter(q, s[1..]), s);
      } else {
        FilterNone(p, s);
        FilterAll(q, s);
      }
    }
  }

  lemma Reattach<T>(x: T, a: seq<T>, b: seq<T>, s: seq<T>)
    requires s != [] && s[0] == x && a + b == s[1..]
    ensures ([x] + a) + b == s
  {
    assert ([x] + a) + b == [x] + (a + b);
  }

  lemma {:induction false} FilterAll<T>(p: T -> bool, s: seq<T>)
    requires forall i :: 0 <= i < |s| ==> p(s[i])
    ensures Filter(p, s) == s
  {
    if s != [] {
      FilterAll(p, s[1..]);
    }
  }

  lemma {:induction false} FilterNone<T>(p: T -> bool, s: seq<T>)
    requires forall i :: 0 <= i < |s| ==> !p(s[i])
    ensures Filter(p, s) == []
  {
    if s != [] {
      FilterNone(p, s[1..]);
    }
  }

  /** Nothing is lost: the assignments followed by the fallback queue are the customers 0..count-1 in order. */
  lemma NothingLost(pool: Pool, mode: Mode, sim: Sim, k: nat)
    requires ValidSim(sim)
    ensures Assignments(Slots(pool, mode, sim, k)) + Fallbacks(Slots(pool, mode, sim, k)) == Slots(pool, mode, sim, k)
    ensures forall t :: 0 <= t < k ==> Slots(pool, mode, sim, k)[t].customerIndex == t
  {
    var slots := Slots(pool, mode, sim, k);
    forall t, u | 0 <= t < u < k && slots[t].Unassigned?
      ensures slots[u].Unassigned?
    {
      FallbackIsFinal(pool, mode, sim, k, t, u);
    }
    SplitAtFirst(IsAssigned, IsFallback, slots);
  }

  // ------------------------------------------------------------ what is gained

  /** Same person: everything but the two counters. */
  ghost predicate SameStaff(a: Staff, b: Staff) {
    b == a.(currentCapacity := b.currentCapacity, periodAssignments := b.periodAssignments)
  }

  function Gain(pool: Pool, mode: Mode, sim: Sim, k: nat, i: nat): int
    requires ValidSim(sim) && i < |sim.states|
  {
    After(pool, mode, sim, k).states[i].periodAssignments - sim.states[i].periodAssignments
  }

  function Hit(pool: Pool, mode: Mode, sim: Sim, t: nat, i: nat): nat
    requires ValidSim(sim)
  {
    if Choose(pool, mode, After(pool, mode, sim, t)).0 == Some(i) then 1 else 0
  }

  /** Both counters of a staff member grow by exactly the customers it was handed; nothing else changes. */
  lemma {:induction false} CountersTogether(pool: Pool, mode: Mode, sim: Sim, k: nat, i: nat)
    requires ValidSim(sim) && i < |sim.states|
    ensures SameStaff(sim.states[i], After(pool, mode, sim, k).states[i])
    ensures After(pool, mode, sim, k).states[i].currentCapacity
         == sim.states[i].currentCapacity + Gain(pool, mode, sim, k, i)
    ensures Gain(pool, mode, sim, k, i) >= 0
    ensures k > 0 ==> Gain(pool, mode, sim, k, i) == Gain(pool, mode, sim, k - 1, i) + Hit(pool, mode, sim, k - 1, i)
  {
    if k > 0 {
      CountersTogether(pool, mode, sim, k - 1, i);
    }
  }

  /** Only staff with room are chosen, and outside source allocation only eligible ones. */
  lemma ChosenOpen(pool: Pool, mode: Mode, sim: Sim)
    requires ValidSim(sim)
    ensures Choose(pool, mode, sim).0.Some? ==> SourceOpen(sim.states[Choose(pool, mode, sim).0.value])
    ensures Choose(pool, mode, sim).0.Some? && !pool.strategy.SourceAllocation? ==>
      Eligible(sim.states[Choose(pool, mode, sim).0.value])
  {
  }

  /** One customer more leaves the limits as they are and, below capacity, capacity kept. */
  lemma CapacityStep(pool: Pool, mode: Mode, sim: Sim, i: nat)
    requires ValidSim(sim) && i < |sim.states|
    ensures Advance(pool, mode, sim).states[i].maxCapacity == sim.states[i].maxCapacity
    ensures sim.states[i].currentCapacity <= sim.states[i].maxCapacity ==>
      Advance(pool, mode, sim).states[i].currentCapacity <= sim.states[i].maxCapacity
  {
    ChosenOpen(pool, mode, sim);
  }

  /** Nobody who starts within maxCapacity ever passes it. */
  lemma {:induction false} CapacityKept(pool: Pool, mode: Mode, sim: Sim, k: nat, i: nat)
    requires ValidSim(sim) && i < |sim.states|
    requires sim.states[i].currentCapacity <= sim.states[i].maxCapacity
    ensures After(pool, mode, sim, k).states[i].maxCapacity == sim.states[i].maxCapacity
    ensures After(pool, mode, sim, k).states[i].currentCapacity <= sim.states[i].maxCapacity
  {
    if k > 0 {
      CapacityKept(pool, mode, sim, k - 1, i);
      CapacityStep(pool, mode, After(pool, mode, sim, k - 1), i);
    }
  }

  ghost predicate SameQuota(a: Staff, b: Staff) {
    a.capPeriod == b.capPeriod && a.periodCap == b.periodCap
  }

  lemma QuotaStep(pool: Pool, mode: Mode, sim: Sim, i: nat)
    requires ValidSim(sim) && i < |sim.states| && !pool.strategy.SourceAllocation?
    requires sim.states[i].capPeriod.Some? && sim.states[i].periodCap != 0
    ensures SameQuota(Advance(pool, mode, sim).states[i], sim.states[i])
    ensures sim.states[i].periodAssignments <= sim.states[i].periodCap ==>
      Advance(pool, mode, sim).states[i].periodAssignments <= sim.states[i].periodCap
  {
    ChosenOpen(pool, mode, sim);
  }

  /** Outside source allocation nobody who starts within a period quota ever passes it. */
  lemma {:induction false} QuotaKept(pool: Pool, mode: Mode, sim: Sim, k: nat, i: nat)
    requires ValidSim(sim) && i < |sim.states| && !pool.strategy.SourceAllocation?
    requires sim.states[i].capPeriod.Some? && sim.states[i].periodCap != 0
    requires sim.states[i].periodAssignments <= sim.states[i].periodCap
    ensures SameQuota(After(pool, mode, sim, k).states[i], sim.states[i])
    ensures After(pool, mode, sim, k).states[i].periodAssignments <= sim.states[i].periodCap
  {
    if k > 0 {
      QuotaKept(pool, mode, sim, k - 1, i);
      QuotaStep(pool, mode, After(pool, mode, sim, k - 1), i);
    }
  }

  /** A hybrid pool assigns nobody. */
  lemma HybridAssignsNobody(pool: Pool, mode: Mode, sim: Sim, k: nat)
    requires ValidSim(sim) && pool.strategy.Hybrid?
    ensures Assignments(Slots(pool, mode, sim, k)) == []
  {
    FilterNone(IsAssigned, Slots(pool, mode, sim, k));
  }

  // ------------------------------------------------------ counting assignments

  function CountFor(slots: seq<Slot>, id: string): nat {
    if slots == [] then 0
    else
      var last := slots[|slots| - 1];
      CountFor(slots[..|slots| - 1], id) + (if last.Assigned? && last.staffActorId == id then 1 else 0)
  }

  lemma AssignmentsExtend(slots: seq<Slot>, last: Slot)
    ensures Assignments(slots + [last]) == if last.Assigned? then Assignments(slots) + [last] else Assignments(slots)
  {
    FilterConcat(IsAssigned, slots, [last]);
    assert Filter(IsAssigned, [last]) == if last.Assigned? then [last] else [];
    assert Assignments(slots) + [] == Assignments(slots);
  }

  lemma {:induction false} CountForAssignments(slots: seq<Slot>, id: string)
    ensures CountFor(Assignments(slots), id) == CountFor(slots, id)
  {
    if slots != [] {
      var init, last := slots[..|slots| - 1], slots[|slots| - 1];
      CountForAssignments(init, id);
      AssignmentsExtend(init, last);
      assert slots == init + [last];
      var kept := Assignments(init);
      if last.Assigned? {
        assert (kept + [last])[..|kept|] == kept;
      }
    }
  }

  lemma SlotNamesChosen(pool: Pool, mode: Mode, sim: Sim, t: nat, i: nat)
    requires ValidSim(sim) && i < |sim.states| && DistinctStaff(sim.states)
    ensures var slot := SlotFor(pool, mode, After(pool, mode, sim, t), t);
      (slot.Assigned? && slot.staffActorId == sim.states[i].actorId) <==> Hit(pool, mode, sim, t, i) == 1
  {
    var now := After(pool, mode, sim, t);
    var picked := Choose(pool, mode, now).0;
    if picked.Some? {
      CountersTogether(pool, mode, sim, t, picked.value);
      if picked.value != i {
        assert sim.states[picked.value].actorId != sim.states[i].actorId;
      }
    }
  }

  lemma CountForLast(pool: Pool, mode: Mode, sim: Sim, k: nat, id: string)
    requires ValidSim(sim) && k > 0
    ensures var last := SlotFor(pool, mode, After(pool, mode, sim, k - 1), k - 1);
      CountFor(Slots(pool, mode, sim, k), id)
      == CountFor(Slots(pool, mode, sim, k - 1), id) + (if last.Assigned? && last.staffActorId == id then 1 else 0)
  {
    assert Slots(pool, mode, sim, k)[..k - 1] == Slots(pool, mode, sim, k - 1);
  }

  /** With distinct ids, the slots naming a staff member are exactly its gain. */
  lemma {:induction false} SlotsCountGain(pool: Pool, mode: Mode, sim: Sim, k: nat, i: nat)
    requires ValidSim(sim) && i < |sim.states| && DistinctStaff(sim.states)
    ensures CountFor(Slots(pool, mode, sim, k), sim.states[i].actorId) == Gain(pool, mode, sim, k, i)
  {
    if k > 0 {
      SlotsCountGain(pool, mode, sim, k - 1, i);
      CountForLast(pool, mode, sim, k, sim.states[i].actorId);
      SlotNamesChosen(pool, mode, sim, k - 1, i);
      CountersTogether(pool, mode, sim, k, i);
    }
  }

  /** So the totals of the assignments are the growth of the staff's own counters. */
  lemma TotalsAreGrowth(pool: Pool, mode: Mode, sim: Sim, k: nat, i: nat)
    requires ValidSim(sim) && i < |sim.states| && DistinctStaff(sim.states)
    ensures CountFor(Assignments(Slots(pool, mode, sim, k)), sim.states[i].actorId)
         == After(pool, mode, sim, k).states[i].periodAssignments - sim.states[i].periodAssignments
  {
    CountForAssignments(Slots(pool, mode, sim, k), sim.states[i].actorId);
    SlotsCountGain(pool, mode, sim, k, i);
    CountersTogether(pool, mode, sim, k, i);
  }

  /** The per-actor totals reported to the screen count the assignments of each staff member. */
  method AggregateAssignments(assignments: seq<Slot>) returns (totals: map<string, nat>)
    ensures forall id :: (if id in totals then totals[id] else 0) == CountFor(assignments, id)
  {
    totals := map[];
    for n := 0 to |assignments|
      invariant forall id :: (if id in totals then totals[id] else 0) == CountFor(assignments[..n], id)
    {
      assert assignments[..n + 1][..n] == assignments[..n];
      var a := assignments[n];
      if a.Assigned? {
        var was := if a.staffActorId in totals then totals[a.staffActorId] else 0;
        totals := totals[a.staffActorId := was + 1];
      }
    }
    assert assignments[..|assignments|] == assignments;
  }
}
