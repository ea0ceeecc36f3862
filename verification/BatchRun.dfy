/** Batch mode: the drain queue fills every planned staff member to min(planned, headroom). */
module BatchRun {
  import opened Ordering
  import opened Routing
  import opened LargestRemainder
  import opened Distribution

  // ------------------------------------------------- what is still to be handed out

  function AsWeight(e: QueueEntry): Weight {
    Weight(e.actorId, if e.remaining > 0 then e.remaining else 0)
  }

  function AsWeights(queue: seq<QueueEntry>): (ws: seq<Weight>)
    ensures |ws| == |queue|
    ensures forall q :: 0 <= q < |queue| ==> ws[q] == AsWeight(queue[q])
  {
    Map(AsWeight, queue)
  }

  ghost predicate DistinctQueue(queue: seq<QueueEntry>) {
    forall p, q :: 0 <= p < q < |queue| ==> queue[p].actorId != queue[q].actorId
  }

  function Min(a: nat, b: nat): nat {
    if a < b then a else b
  }

  /** How many more customers a staff member can get: left in its queue entry and left of its headroom. */
  function Potential(queue: seq<QueueEntry>, s: Staff): nat {
    Min(WeightOf(AsWeights(queue), s.actorId), Headroom(s))
  }

  function Potentials(sim: Sim): (p: seq<int>)
    ensures |p| == |sim.states|
    ensures forall i :: 0 <= i < |sim.states| ==> p[i] == Potential(sim.queue, sim.states[i])
  {
    seq(|sim.states|, i requires 0 <= i < |sim.states| => Potential(sim.queue, sim.states[i]) as int)
  }

  ghost predicate BatchStart(pool: Pool, sim: Sim) {
    && pool.strategy.WeightedDistribution? && TotalWeight(pool.weights) > 0
    && DistinctStaff(sim.states) && DistinctQueue(sim.queue)
  }

  lemma QueueMember(queue: seq<QueueEntry>, q: nat)
    requires DistinctQueue(queue) && q < |queue|
    ensures WeightOf(AsWeights(queue), queue[q].actorId) == AsWeight(queue[q]).weight
  {
    WeightOfMember(AsWeights(queue), q);
  }

  lemma FindDistinct(states: seq<Staff>, i: nat)
    requires DistinctStaff(states) && i < |states|
    ensures FindStaff(states, states[i].actorId, 0) == Some(i)
  {
    var found := FindStaff(states, states[i].actorId, 0);
    SameStaff(states, i, found.value);
  }

  lemma SameStaff(states: seq<Staff>, i: nat, k: nat)
    requires DistinctStaff(states) && i < |states| && k < |states| && states[i].actorId == states[k].actorId
    ensures i == k
  {
  }

  lemma PotentialEntry(queue: seq<QueueEntry>, s: Staff) returns (q: nat)
    requires Potential(queue, s) > 0
    ensures q < |queue| && queue[q].actorId == s.actorId
  {
    if forall k :: 0 <= k < |queue| ==> queue[k].actorId != s.actorId {
      WeightOfAbsent(AsWeights(queue), s.actorId);
      assert false;
    }
    q :| q < |queue| && queue[q].actorId == s.actorId;
  }

  lemma PotentialUsable(sim: Sim, i: nat) returns (q: nat)
    requires DistinctStaff(sim.states) && DistinctQueue(sim.queue)
    requires i < |sim.states| && Potential(sim.queue, sim.states[i]) > 0
    ensures q < |sim.queue| && Usable(sim.queue[q], sim.states)
    ensures sim.queue[q].actorId == sim.states[i].actorId
  {
    q := PotentialEntry(sim.queue, sim.states[i]);
    QueueMember(sim.queue, q);
    FindDistinct(sim.states, i);
  }

  /** Somebody is chosen exactly when somebody still has potential. */
  lemma ChosenIffPotential(pool: Pool, sim: Sim)
    requires ValidSim(sim) && BatchStart(pool, sim)
    ensures Choose(pool, Batch, sim).0.None? ==> forall i :: 0 <= i < |sim.states| ==> Potentials(sim)[i] == 0
    ensures Choose(pool, Batch, sim).0.Some? ==> Potentials(sim)[Choose(pool, Batch, sim).0.value] > 0
  {
    var entry := FirstUsable(sim.queue, sim.states, 0);
    if entry.None? {
      forall i | 0 <= i < |sim.states|
        ensures Potentials(sim)[i] == 0
      {
        if Potentials(sim)[i] > 0 {
          var q := PotentialUsable(sim, i);
          assert false;
        }
      }
    } else {
      QueueMember(sim.queue, entry.value);
    }
  }

  lemma DrainedWeight(queue: seq<QueueEntry>, k: nat, id: string)
    requires DistinctQueue(queue) && k < |queue| && queue[k].remaining > 0
    ensures var drained := queue[k := queue[k].(remaining := queue[k].remaining - 1)];
      && DistinctQueue(drained)
      && WeightOf(AsWeights(drained), id)
         == WeightOf(AsWeights(queue), id) - (if id == queue[k].actorId then 1 else 0)
  {
    var drained := queue[k := queue[k].(remaining := queue[k].remaining - 1)];
    if q :| 0 <= q < |queue| && queue[q].actorId == id {
      QueueMember(queue, q);
      QueueMember(drained, q);
      if q != k {
        assert queue[q].actorId != queue[k].actorId;
      }
    } else {
      WeightOfAbsent(AsWeights(queue), id);
      WeightOfAbsent(AsWeights(drained), id);
    }
  }

  /** One step takes one unit of potential from the chosen staff member and nothing from the others. */
  lemma PotentialStep(pool: Pool, sim: Sim, i: nat)
    requires ValidSim(sim) && BatchStart(pool, sim) && i < |sim.states|
    ensures Potentials(Advance(pool, Batch, sim))[i]
         == Potentials(sim)[i] - (if Choose(pool, Batch, sim).0 == Some(i) then 1 else 0)
  {
    var entry := FirstUsable(sim.queue, sim.states, 0);
    if entry.Some? {
      DrainedWeight(sim.queue, entry.value, sim.states[i].actorId);
      ServedPotential(pool, sim, i);
    }
  }

  lemma ServedPotential(pool: Pool, sim: Sim, i: nat)
    requires ValidSim(sim) && BatchStart(pool, sim) && i < |sim.states|
    requires FirstUsable(sim.queue, sim.states, 0).Some?
    ensures var e := sim.queue[FirstUsable(sim.queue, sim.states, 0).value];
      (Choose(pool, Batch, sim).0 == Some(i) <==> e.actorId == sim.states[i].actorId)
    ensures Choose(pool, Batch, sim).0 == Some(i) ==>
      Eligible(sim.states[i]) && Headroom(Served(sim.states[i])) == Headroom(sim.states[i]) - 1
    ensures Choose(pool, Batch, sim).0 == Some(i) ==> Potential(sim.queue, sim.states[i]) > 0
  {
    FindDistinct(sim.states, i);
    ChosenIffPotential(pool, sim);
  }

  lemma BatchKept(pool: Pool, sim: Sim)
    requires ValidSim(sim) && BatchStart(pool, sim)
    ensures BatchStart(pool, Advance(pool, Batch, sim))
  {
    var next := Advance(pool, Batch, sim);
    assert forall q :: 0 <= q < |sim.queue| ==> next.queue[q].actorId == sim.queue[q].actorId;
    assert forall i :: 0 <= i < |sim.states| ==> next.states[i].actorId == sim.states[i].actorId;
  }

  lemma UnitTaken(before: seq<int>, after: seq<int>, taken: Option<nat>)
    requires |after| == |before| && forall i :: 0 <= i < |before| ==> before[i] >= 0
    requires forall i :: 0 <= i < |before| ==> after[i] == before[i] - (if taken == Some(i) then 1 else 0)
    requires taken.Some? ==> taken.value < |before| && before[taken.value] > 0
    requires taken.None? ==> forall i :: 0 <= i < |before| ==> before[i] == 0
    ensures Sum(after) == Sum(before) - (if taken.Some? then 1 else 0)
    ensures taken.Some? <==> Sum(before) > 0
  {
    if taken.Some? {
      var v := taken.value;
      SumUpdate(before, v, before[v] - 1);
      assert after == before[v := before[v] - 1];
      SumWithout(before, v);
      SumAtLeast(Without(before, v), 0);
    } else {
      assert after == before;
      SumZero(before);
    }
  }

  lemma PotentialTotalStep(pool: Pool, sim: Sim)
    requires ValidSim(sim) && BatchStart(pool, sim)
    ensures Sum(Potentials(Advance(pool, Batch, sim)))
         == Sum(Potentials(sim)) - (if Choose(pool, Batch, sim).0.Some? then 1 else 0)
    ensures Choose(pool, Batch, sim).0.Some? <==> Sum(Potentials(sim)) > 0
  {
    var before, after := Potentials(sim), Potentials(Advance(pool, Batch, sim));
    forall i | 0 <= i < |before|
      ensures after[i] == before[i] - (if Choose(pool, Batch, sim).0 == Some(i) then 1 else 0)
    {
      PotentialStep(pool, sim, i);
    }
    ChosenIffPotential(pool, sim);
    UnitTaken(before, after, Choose(pool, Batch, sim).0);
  }

  /** After k customers, the gain and the potential left add up to the potential at the start. */
  lemma {:induction false} PotentialLaw(pool: Pool, sim: Sim, k: nat)
    requires ValidSim(sim) && BatchStart(pool, sim)
    ensures BatchStart(pool, After(pool, Batch, sim, k))
    ensures forall i :: 0 <= i < |sim.states| ==>
      Gain(pool, Batch, sim, k, i) + Potentials(After(pool, Batch, sim, k))[i] == Potentials(sim)[i]
    ensures var total := Sum(Potentials(sim));
      Sum(Potentials(After(pool, Batch, sim, k))) == if k <= total then total - k else 0
  {
    SumAtLeast(Potentials(sim), 0);
    if k > 0 {
      PotentialLaw(pool, sim, k - 1);
      var last := After(pool, Batch, sim, k - 1);
      BatchKept(pool, last);
      PotentialTotalStep(pool, last);
      forall i | 0 <= i < |sim.states|
        ensures Gain(pool, Batch, sim, k, i) + Potentials(After(pool, Batch, sim, k))[i] == Potentials(sim)[i]
      {
        PotentialStep(pool, last, i);
        CountersTogether(pool, Batch, sim, k, i);
      }
    }
  }

  /** Enough customers use up all the potential, and exactly the first `total` of them are assigned. */
  lemma PotentialExhausted(pool: Pool, sim: Sim, k: nat)
    requires ValidSim(sim) && BatchStart(pool, sim) && k >= Sum(Potentials(sim))
    ensures forall i :: 0 <= i < |sim.states| ==> Gain(pool, Batch, sim, k, i) == Potentials(sim)[i]
    ensures forall t :: 0 <= t < k ==> (Slots(pool, Batch, sim, k)[t].Assigned? <==> t < Sum(Potentials(sim)))
  {
    PotentialLaw(pool, sim, k);
    var left := Potentials(After(pool, Batch, sim, k));
    SumMonotone(Zeros(|left|), left);
    SumZero(Zeros(|left|));
    forall t | 0 <= t < k
      ensures Slots(pool, Batch, sim, k)[t].Assigned? <==> t < Sum(Potentials(sim))
    {
      PotentialLaw(pool, sim, t);
      PotentialTotalStep(pool, After(pool, Batch, sim, t));
    }
  }

  // ------------------------------------------------------ the queue of a plan

  function Entry(p: QuotaPlan): QueueEntry {
    QueueEntry(p.actorId, p.baseCount)
  }

  function Left(e: QueueEntry): int {
    AsWeight(e).weight
  }

  predicate EntryLeq(a: QueueEntry, b: QueueEntry) {
    AtMost(a.actorId, b.actorId)
  }

  lemma QueueArranges(plans: seq<QuotaPlan>)
    ensures multiset(PlanToQueue(plans)) == multiset(Map(Entry, plans))
    ensures Sorted(PlanToQueue(plans), EntryLeq)
  {
    var entries := Map((p: QuotaPlan) => QueueEntry(p.actorId, p.baseCount), plans);
    assert entries == Map(Entry, plans);
    var leq := (a: QueueEntry, b: QueueEntry) => AtMost(a.actorId, b.actorId);
    SortPermutes(entries, leq);
    forall a: QueueEntry, b: QueueEntry, c: QueueEntry
      ensures leq(a, b) || leq(b, a)
      ensures leq(a, b) && leq(b, c) ==> leq(a, c)
    {
      AtMostTotalOrder(a.actorId, b.actorId, c.actorId);
    }
    SortSorts(entries, leq);
    var queue := Sort(entries, leq);
    forall i, j | 0 <= i < j < |queue|
      ensures EntryLeq(queue[i], queue[j])
    {
      assert leq(queue[i], queue[j]);
    }
  }

  lemma {:induction false} TotalIsSum(ws: seq<Weight>)
    ensures TotalWeight(ws) == Sum(WeightValues(ws))
  {
    if ws != [] {
      TotalIsSum(ws[1..]);
      assert WeightValues(ws)[1..] == WeightValues(ws[1..]);
    }
  }

  lemma LeftOfPlans(plans: seq<QuotaPlan>)
    requires forall i :: 0 <= i < |plans| ==> plans[i].baseCount >= 0
    ensures Map(Left, Map(Entry, plans)) == BaseCounts(plans)
  {
  }

  lemma LeftOfQueue(queue: seq<QueueEntry>)
    ensures Sum(Map(Left, queue)) == TotalWeight(AsWeights(queue))
  {
    assert Map(Left, queue) == WeightValues(AsWeights(queue));
    TotalIsSum(AsWeights(queue));
  }

  lemma QueueTotal(plans: seq<QuotaPlan>)
    requires forall i :: 0 <= i < |plans| ==> plans[i].baseCount >= 0
    ensures TotalWeight(AsWeights(PlanToQueue(plans))) == Sum(BaseCounts(plans))
  {
    QueueArranges(plans);
    MapPermutes(Left, PlanToQueue(plans), Map(Entry, plans));
    SumPermutation(Map(Left, PlanToQueue(plans)), Map(Left, Map(Entry, plans)));
    LeftOfPlans(plans);
    LeftOfQueue(PlanToQueue(plans));
  }

  lemma NaturalBase(N: nat, W: int, w: Weight)
    requires W > 0
    ensures Base(N, W, w).baseCount >= 0
  {
    assert N * w.weight >= 0;
  }

  lemma PlanCountsNatural(N: nat, weights: seq<Weight>, states: seq<Staff>)
    ensures forall i :: 0 <= i < |QuotaPlans(N, weights, states)| ==> QuotaPlans(N, weights, states)[i].baseCount >= 0
  {
    if EligibleWeights(weights, states) != [] {
      var W, ranked, extra := PlanAnatomy(N, weights, states);
      forall i | 0 <= i < |ranked| {
        NaturalBase(N, W, ranked[i]);
      }
    }
  }

  function WeightIds(ws: seq<Weight>): (ids: seq<string>)
    ensures |ids| == |ws|
    ensures forall i :: 0 <= i < |ws| ==> ids[i] == ws[i].recipientActorId
  {
    Map((w: Weight) => w.recipientActorId, ws)
  }

  function PlanIds(plans: seq<QuotaPlan>): (ids: seq<string>)
    ensures |ids| == |plans|
    ensures forall i :: 0 <= i < |plans| ==> ids[i] == plans[i].actorId
  {
    Map((p: QuotaPlan) => p.actorId, plans)
  }

  function QueueIds(queue: seq<QueueEntry>): (ids: seq<string>)
    ensures |ids| == |queue|
    ensures forall i :: 0 <= i < |queue| ==> ids[i] == queue[i].actorId
  {
    Map((e: QueueEntry) => e.actorId, queue)
  }

  lemma RankedIdsDistinct(ws: seq<Weight>, ranked: seq<Weight>)
    requires DistinctWeights(ws) && multiset(ranked) == multiset(ws)
    ensures NoDuplicates(WeightIds(ranked))
  {
    MapPermutes((w: Weight) => w.recipientActorId, ws, ranked);
    NoDuplicatesPermutes(WeightIds(ws), WeightIds(ranked));
  }

  lemma TopUpIds(N: int, W: int, ranked: seq<Weight>, extra: int)
    requires W > 0
    ensures PlanIds(TopUp(BasePlans(N, W, ranked), extra)) == WeightIds(ranked)
  {
  }

  lemma PlanIdsDistinct(N: int, weights: seq<Weight>, states: seq<Staff>)
    requires DistinctWeights(weights)
    ensures NoDuplicates(PlanIds(QuotaPlans(N, weights, states)))
  {
    if EligibleWeights(weights, states) != [] {
      var ids := EligibleIds(states);
      DistinctSubsequence((w: Weight) => w.recipientActorId in ids && w.weight > 0, weights);
      var W, ranked, extra := PlanAnatomy(N, weights, states);
      RankedIdsDistinct(EligibleWeights(weights, states), ranked);
      TopUpIds(N, W, ranked, extra);
    }
  }

  /** Distinct plans make a queue naming everybody at most once. */
  lemma QueueIdsDistinct(plans: seq<QuotaPlan>)
    requires NoDuplicates(PlanIds(plans))
    ensures DistinctQueue(PlanToQueue(plans))
  {
    var queue := PlanToQueue(plans);
    QueueArranges(plans);
    MapPermutes((e: QueueEntry) => e.actorId, Map(Entry, plans), queue);
    assert QueueIds(Map(Entry, plans)) == PlanIds(plans);
    NoDuplicatesPermutes(PlanIds(plans), QueueIds(queue));
    IdsApart(queue);
  }

  lemma IdsApart(queue: seq<QueueEntry>)
    requires NoDuplicates(QueueIds(queue))
    ensures DistinctQueue(queue)
  {
    forall i, j | 0 <= i < j < |queue|
      ensures queue[i].actorId != queue[j].actorId
    {
      assert QueueIds(queue)[i] != QueueIds(queue)[j];
    }
  }

  lemma PlannedEntry(plans: seq<QuotaPlan>, i: nat)
    requires i < |plans| && DistinctQueue(PlanToQueue(plans)) && plans[i].baseCount >= 0
    ensures WeightOf(AsWeights(PlanToQueue(plans)), plans[i].actorId) == plans[i].baseCount
  {
    var queue := PlanToQueue(plans);
    QueueArranges(plans);
    SameMembers(queue, Map(Entry, plans));
    assert Map(Entry, plans)[i] == Entry(plans[i]);
    assert Entry(plans[i]) in queue;
    var q :| 0 <= q < |queue| && queue[q] == Entry(plans[i]);
    QueueMember(queue, q);
  }

  lemma UnplannedEntry(plans: seq<QuotaPlan>, id: string)
    requires forall i :: 0 <= i < |plans| ==> plans[i].actorId != id
    ensures WeightOf(AsWeights(PlanToQueue(plans)), id) == 0
  {
    var queue := PlanToQueue(plans);
    QueueArranges(plans);
    SameMembers(queue, Map(Entry, plans));
    forall q | 0 <= q < |queue|
      ensures AsWeights(queue)[q].recipientActorId != id
    {
      assert queue[q] in Map(Entry, plans);
      var i :| 0 <= i < |plans| && Map(Entry, plans)[i] == queue[q];
    }
    WeightOfAbsent(AsWeights(queue), id);
  }

  // -------------------------------------------------------------- closed form

  /** What the plan intends for an actor; 0 when it is not in the plan. */
  function Planned(plans: seq<QuotaPlan>, id: string): int {
    if plans == [] then 0
    else if plans[0].actorId == id then plans[0].baseCount
    else Planned(plans[1..], id)
  }

  lemma {:induction false} PlannedFound(plans: seq<QuotaPlan>, id: string)
    ensures (exists i :: 0 <= i < |plans| && plans[i].actorId == id && Planned(plans, id) == plans[i].baseCount)
         || (Planned(plans, id) == 0 && forall i :: 0 <= i < |plans| ==> plans[i].actorId != id)
  {
    if plans != [] && plans[0].actorId != id {
      PlannedFound(plans[1..], id);
      if i :| 0 <= i < |plans[1..]| && plans[1..][i].actorId == id && Planned(plans[1..], id) == plans[1..][i].baseCount {
        assert plans[i + 1] == plans[1..][i];
      } else {
        forall i | 0 <= i < |plans|
          ensures plans[i].actorId != id
        {
          assert i > 0 ==> plans[i] == plans[1..][i - 1];
        }
      }
    }
  }

  lemma PlannedIsQueued(N: nat, weights: seq<Weight>, states: seq<Staff>, id: string)
    requires DistinctWeights(weights)
    ensures Planned(QuotaPlans(N, weights, states), id)
         == WeightOf(AsWeights(PlanToQueue(QuotaPlans(N, weights, states))), id)
  {
    var plans := QuotaPlans(N, weights, states);
    PlanIdsDistinct(N, weights, states);
    QueueIdsDistinct(plans);
    PlanCountsNatural(N, weights, states);
    PlannedFound(plans, id);
    if i :| 0 <= i < |plans| && plans[i].actorId == id && Planned(plans, id) == plans[i].baseCount {
      PlannedEntry(plans, i);
    } else {
      UnplannedEntry(plans, id);
    }
  }

  lemma PotentialFitsCount(pool: Pool, states: seq<Staff>, count: nat)
    requires pool.strategy.WeightedDistribution? && DistinctStaff(states) && DistinctWeights(pool.weights)
    ensures Sum(Potentials(Start(pool, Batch, states, count))) <= count
  {
    var sim := Start(pool, Batch, states, count);
    var plans := QuotaPlans(count, pool.weights, states);
    var queued := AsWeights(sim.queue);
    PlanIdsDistinct(count, pool.weights, states);
    QueueIdsDistinct(plans);
    PlanCountsNatural(count, pool.weights, states);
    QueueTotal(plans);
    if EligibleWeights(pool.weights, states) != [] {
      PlanConserves(count, pool.weights, states);
    } else {
      SumZero(BaseCounts(plans));
    }
    StaffWeightsTotal(states, queued);
    SumMonotone(Potentials(sim), StaffWeights(states, queued));
  }

  lemma {:induction false} FilterPrefix<T>(p: T -> bool, s: seq<T>, m: nat)
    requires m <= |s| && forall i :: 0 <= i < |s| ==> (p(s[i]) <==> i < m)
    ensures Filter(p, s) == s[..m]
  {
    if m == 0 {
      FilterNone(p, s);
    } else {
      var rest, before := s[1..], m - 1;
      FilterPrefix(p, rest, before);
      assert s[..m] == [s[0]] + rest[..before];
    }
  }

  lemma {:induction false} FilterSuffix<T>(p: T -> bool, s: seq<T>, m: nat)
    requires m <= |s| && forall i :: 0 <= i < |s| ==> (p(s[i]) <==> m <= i)
    ensures Filter(p, s) == s[m..]
  {
    if m == 0 {
      FilterAll(p, s);
    } else {
      FilterSuffix(p, s[1..], m - 1);
    }
  }

  /** The closed form of a batch run of N customers: everybody ends with the smaller of its planned count and
      its starting headroom; the rest of the customers, and only they, fall back. */
  lemma BatchClosedForm(pool: Pool, states: seq<Staff>, count: nat)
    requires pool.strategy.WeightedDistribution? && TotalWeight(pool.weights) > 0
    requires DistinctStaff(states) && DistinctWeights(pool.weights)
    ensures var sim := Start(pool, Batch, states, count);
      var plans := QuotaPlans(count, pool.weights, states);
      var total := Sum(Potentials(sim));
      && (forall i :: 0 <= i < |states| ==>
            Planned(plans, states[i].actorId) >= 0 &&
            Gain(pool, Batch, sim, count, i) == Min(Planned(plans, states[i].actorId), Headroom(states[i])) == Potentials(sim)[i])
      && 0 <= total <= count
      && Assignments(Slots(pool, Batch, sim, count)) == Slots(pool, Batch, sim, count)[..total]
      && Fallbacks(Slots(pool, Batch, sim, count)) == Slots(pool, Batch, sim, count)[total..]
  {
    var sim := Start(pool, Batch, states, count);
    PlanIdsDistinct(count, pool.weights, states);
    QueueIdsDistinct(QuotaPlans(count, pool.weights, states));
    PotentialFitsCount(pool, states, count);
    PotentialExhausted(pool, sim, count);
    SumAtLeast(Potentials(sim), 0);
    forall i | 0 <= i < |states| {
      PlannedIsQueued(count, pool.weights, states, states[i].actorId);
    }
    FilterPrefix(IsAssigned, Slots(pool, Batch, sim, count), Sum(Potentials(sim)));
    FilterSuffix(IsFallback, Slots(pool, Batch, sim, count), Sum(Potentials(sim)));
  }

  // -------------------------------------------------------- order of filling

  lemma {:induction false} GainGrows(pool: Pool, mode: Mode, sim: Sim, t: nat, u: nat, i: nat)
    requires ValidSim(sim) && i < |sim.states| && t <= u
    ensures Gain(pool, mode, sim, t, i) <= Gain(pool, mode, sim, u, i)
    decreases u - t
  {
    if t < u {
      CountersTogether(pool, mode, sim, t + 1, i);
      GainGrows(pool, mode, sim, t + 1, u, i);
    }
  }

  lemma {:induction false} QueueIdsKept(pool: Pool, sim: Sim, k: nat)
    requires ValidSim(sim)
    ensures QueueIds(After(pool, Batch, sim, k).queue) == QueueIds(sim.queue)
  {
    if k > 0 {
      QueueIdsKept(pool, sim, k - 1);
      var last := After(pool, Batch, sim, k - 1);
      assert QueueIds(Advance(pool, Batch, last).queue) == QueueIds(last.queue);
    }
  }

  /** An entry usable at a later time was usable before. */
  lemma UsableEarlier(pool: Pool, sim: Sim, t: nat, u: nat)
    requires ValidSim(sim) && BatchStart(pool, sim) && t <= u
    requires FirstUsable(After(pool, Batch, sim, u).queue, After(pool, Batch, sim, u).states, 0).Some?
    ensures var first := FirstUsable(After(pool, Batch, sim, t).queue, After(pool, Batch, sim, t).states, 0);
      first.Some? &&
      first.value <= FirstUsable(After(pool, Batch, sim, u).queue, After(pool, Batch, sim, u).states, 0).value
  {
    PotentialLaw(pool, sim, t);
    PotentialLaw(pool, sim, u);
    var a, b := After(pool, Batch, sim, t), After(pool, Batch, sim, u);
    var late := FirstUsable(b.queue, b.states, 0).value;
    var i := FindStaff(b.states, b.queue[late].actorId, 0).value;
    ChosenIffPotential(pool, b);
    GainGrows(pool, Batch, sim, t, u, i);
    var q := PotentialUsable(a, i);
    CountersTogether(pool, Batch, sim, t, i);
    CountersTogether(pool, Batch, sim, u, i);
    QueueIdsKept(pool, sim, t);
    QueueIdsKept(pool, sim, u);
    SameEntry(a.queue, b.queue, q, late);
  }

  lemma SameEntry(a: seq<QueueEntry>, b: seq<QueueEntry>, p: nat, q: nat)
    requires QueueIds(a) == QueueIds(b) && DistinctQueue(a) && p < |a| && q < |b|
    requires a[p].actorId == b[q].actorId
    ensures p == q
  {
    assert QueueIds(b)[q] == QueueIds(a)[q] == a[q].actorId;
    if p < q || q < p {
      assert false;
    }
  }

  lemma SortedIdAt(queue: seq<QueueEntry>, later: seq<QueueEntry>, p: nat, q: nat)
    requires QueueIds(later) == QueueIds(queue) && p <= q < |queue| && Sorted(queue, EntryLeq)
    ensures AtMost(later[p].actorId, later[q].actorId)
  {
    assert QueueIds(later)[p] == queue[p].actorId && QueueIds(later)[q] == queue[q].actorId;
    if p == q {
      AtMostTotalOrder(queue[p].actorId, queue[p].actorId, queue[p].actorId);
    } else {
      assert EntryLeq(queue[p], queue[q]);
    }
  }

  /** A customer is assigned to the actor of the entry where the scan stops, and only then. */
  lemma ScanServes(pool: Pool, sim: Sim, customerIndex: int)
    requires ValidSim(sim) && pool.strategy.WeightedDistribution? && TotalWeight(pool.weights) > 0
    ensures var (slot, first) := (SlotFor(pool, Batch, sim, customerIndex), FirstUsable(sim.queue, sim.states, 0));
      && (slot.Assigned? <==> first.Some?)
      && (first.Some? ==> slot.staffActorId == sim.queue[first.value].actorId)
  {
  }

  /** Where the scan stops moves forward only, and the queue stays sorted. */
  lemma DrainsInOrder(pool: Pool, sim: Sim, a: Sim, b: Sim, t: nat, u: nat)
    requires ValidSim(sim) && BatchStart(pool, sim) && Sorted(sim.queue, EntryLeq) && t <= u
    requires a == After(pool, Batch, sim, t) && b == After(pool, Batch, sim, u)
    requires SlotFor(pool, Batch, b, u).Assigned?
    ensures SlotFor(pool, Batch, a, t).Assigned?
    ensures AtMost(SlotFor(pool, Batch, a, t).staffActorId, SlotFor(pool, Batch, b, u).staffActorId)
  {
    ScanServes(pool, a, t);
    ScanServes(pool, b, u);
    UsableEarlier(pool, sim, t, u);
    QueueIdsKept(pool, sim, t);
    QueueIdsKept(pool, sim, u);
    var p, q := FirstUsable(a.queue, a.states, 0).value, FirstUsable(b.queue, b.states, 0).value;
    SortedIdAt(sim.queue, a.queue, p, q);
    assert QueueIds(a.queue)[q] == QueueIds(b.queue)[q];
  }

  lemma BatchStarts(pool: Pool, states: seq<Staff>, count: nat)
    requires pool.strategy.WeightedDistribution? && TotalWeight(pool.weights) > 0
    requires DistinctStaff(states) && DistinctWeights(pool.weights)
    ensures BatchStart(pool, Start(pool, Batch, states, count))
    ensures Sorted(Start(pool, Batch, states, count).queue, EntryLeq)
  {
    PlanIdsDistinct(count, pool.weights, states);
    QueueIdsDistinct(QuotaPlans(count, pool.weights, states));
    QueueArranges(QuotaPlans(count, pool.weights, states));
  }

  /** The queue is drained one actor after the other, in ascending actorId: no rotation. */
  lemma FillsInOrder(pool: Pool, states: seq<Staff>, count: nat, t: nat, u: nat)
    requires pool.strategy.WeightedDistribution? && TotalWeight(pool.weights) > 0
    requires DistinctStaff(states) && DistinctWeights(pool.weights) && t <= u < count
    requires Slots(pool, Batch, Start(pool, Batch, states, count), count)[u].Assigned?
    ensures var slots := Slots(pool, Batch, Start(pool, Batch, states, count), count);
      slots[t].Assigned? && AtMost(slots[t].staffActorId, slots[u].staffActorId)
  {
    var sim := Start(pool, Batch, states, count);
    BatchStarts(pool, states, count);
    DrainsInOrder(pool, sim, After(pool, Batch, sim, t), After(pool, Batch, sim, u), t, u);
  }
}
