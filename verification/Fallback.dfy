/** Who may be chosen, when a customer falls back, and what reason is given. */
module Fallbacks {
  import opened Ordering
  import opened Routing
  import opened Distribution

  /** Online with a place free; whether a quota is left does not matter. */
  predicate HasPlace(s: Staff) {
    s.online && s.currentCapacity < s.maxCapacity
  }

  /** The staff as the first t customers left it. */
  function StaffAt(pool: Pool, mode: Mode, sim: Sim, t: nat): (states: seq<Staff>)
    requires ValidSim(sim)
    ensures |states| == |sim.states|
  {
    After(pool, mode, sim, t).states
  }

  /** A customer is given to somebody who is online and has a place free at that moment, and outside source allocation some
      quota left too. */
  lemma AssignedHasRoom(pool: Pool, mode: Mode, sim: Sim, k: nat, t: nat) returns (i: nat)
    requires ValidSim(sim) && t < k && Slots(pool, mode, sim, k)[t].Assigned?
    ensures i < |sim.states| && var s := StaffAt(pool, mode, sim, t)[i];
      && Slots(pool, mode, sim, k)[t] == Assigned(t, s.actorId, s.role)
      && HasPlace(s) && (!pool.strategy.SourceAllocation? ==> HasRoom(s))
      && StaffAt(pool, mode, sim, t + 1)[i].currentCapacity == s.currentCapacity + 1
  {
    var now := After(pool, mode, sim, t);
    i := Choose(pool, mode, now).0.value;
    ChosenHasRoom(pool, mode, now, i);
  }

  lemma ChosenHasRoom(pool: Pool, mode: Mode, sim: Sim, i: nat)
    requires ValidSim(sim) && i < |sim.states| && Choose(pool, mode, sim).0 == Some(i)
    ensures HasPlace(sim.states[i]) && (!pool.strategy.SourceAllocation? ==> HasRoom(sim.states[i]))
    ensures Advance(pool, mode, sim).states[i].currentCapacity == sim.states[i].currentCapacity + 1
  {
  }

  /** Somebody whom the queue still names can take a customer. */
  predicate QueueHasRoom(sim: Sim) {
    exists q :: 0 <= q < |sim.queue| && NamesRoom(sim, q)
  }

  /** The first staff member of the entry's id can, and the entry is not used up. */
  predicate NamesRoom(sim: Sim, q: nat)
    requires q < |sim.queue|
  {
    sim.queue[q].remaining > 0 &&
    exists i :: 0 <= i < |sim.states| && FirstNamed(sim.states, i, sim.queue[q].actorId) && HasRoom(sim.states[i])
  }

  predicate FirstNamed(states: seq<Staff>, i: nat, id: string)
    requires i < |states|
  {
    states[i].actorId == id && forall j :: 0 <= j < i ==> states[j].actorId != id
  }

  lemma UsableNames(sim: Sim, q: nat)
    requires q < |sim.queue|
    ensures Usable(sim.queue[q], sim.states) <==> NamesRoom(sim, q)
  {
    var id := sim.queue[q].actorId;
    var found := FindStaff(sim.states, id, 0);
    if found.Some? {
      assert FirstNamed(sim.states, found.value, id);
    }
  }

  /** A customer falls back exactly when nobody can be chosen: under source allocation, nobody online has a place free; in a
      pool without weights, or a hybrid one, always; otherwise nobody has room, or in batch mode nobody the queue still
      names. */
  predicate NobodyLeft(pool: Pool, mode: Mode, sim: Sim) {
    if pool.strategy == SourceAllocation then forall s :: s in sim.states ==> !HasPlace(s)
    else if (forall w :: w in pool.weights ==> w.weight == 0) || pool.strategy == Hybrid then true
    else if mode == Batch then !QueueHasRoom(sim)
    else forall s :: s in sim.states ==> !HasRoom(s)
  }

  predicate UsedUp(s: Staff) {
    s.capPeriod.Some? && s.periodCap != 0 && s.periodAssignments >= s.periodCap
  }

  /** The reason given: the first that applies to all the staff online. */
  predicate Because(pool: Pool, states: seq<Staff>, reason: FallbackReason) {
    if pool.strategy == SourceAllocation then reason == AllStaffOffline
    else if forall w :: w in pool.weights ==> w.weight == 0 then reason == WeightZero
    else if forall s :: s in states ==> !s.online then reason == AllStaffOffline
    else if forall s :: s in states && s.online ==> s.currentCapacity >= s.maxCapacity then reason == AllStaffAtCapacity
    else if forall s :: s in states && s.online ==> UsedUp(s) then
      reason == AllStaffQuotaExhausted
    else reason == NoEligibleWeight
  }

  lemma {:induction false} NoWeight(weights: seq<Weight>)
    ensures TotalWeight(weights) == 0 <==> forall w :: w in weights ==> w.weight == 0
  {
    if weights != [] {
      NoWeight(weights[1..]);
      assert weights == [weights[0]] + weights[1..];
    }
  }

  lemma ChoosesNobody(pool: Pool, mode: Mode, sim: Sim)
    requires ValidSim(sim)
    ensures Choose(pool, mode, sim).0.None? <==> NobodyLeft(pool, mode, sim)
  {
    NoWeight(pool.weights);
    assert forall i :: 0 <= i < |sim.states| ==> sim.states[i] in sim.states;
    var flags := Flags(sim.states);
    assert (forall i :: 0 <= i < |flags| ==> !flags[i]) <==> forall s :: s in sim.states ==> !HasRoom(s);
    forall q | 0 <= q < |sim.queue|
      ensures Usable(sim.queue[q], sim.states) <==> NamesRoom(sim, q)
    {
      UsableNames(sim, q);
    }
  }

  lemma ReasonGiven(pool: Pool, sim: Sim)
    ensures Because(pool, sim.states, Reason(pool, sim))
  {
    NoWeight(pool.weights);
  }

  /** Customer t of a run falls back exactly when nobody is left to choose, and for that reason. */
  lemma FallsBackExactly(pool: Pool, mode: Mode, sim: Sim, k: nat, t: nat)
    requires ValidSim(sim) && t < k
    ensures var slot := Slots(pool, mode, sim, k)[t];
      && (slot.Unassigned? <==> NobodyLeft(pool, mode, After(pool, mode, sim, t)))
      && (slot.Unassigned? ==> slot.customerIndex == t && Because(pool, StaffAt(pool, mode, sim, t), slot.reason))
  {
    ChoosesNobody(pool, mode, After(pool, mode, sim, t));
    ReasonGiven(pool, After(pool, mode, sim, t));
  }
}
