/** Source allocation: the first open staff member takes everything until it is full. */
module SourceRun {
  import opened Ordering
  import opened Routing
  import opened Distribution

  /** Customers a staff member can still take when quotas do not count. */
  function SourceRoom(s: Staff): (room: nat)
    ensures room > 0 <==> SourceOpen(s)
  {
    var free := s.maxCapacity - s.currentCapacity; if s.online && free > 0 then free else 0
  }

  /** The room of the staff listed before i. */
  function RoomBefore(states: seq<Staff>, i: nat): nat
    requires i <= |states|
  {
    if i == 0 then 0 else RoomBefore(states, i - 1) + SourceRoom(states[i - 1])
  }

  /** What staff member i gets of the first k customers: what those before it leave, as far as it has room. */
  function Filled(states: seq<Staff>, k: nat, i: nat): nat
    requires i < |states|
  {
    Share(k - RoomBefore(states, i), SourceRoom(states[i]))
  }

  /** What somebody with this room takes of what is left. */
  function Share(left: int, room: nat): nat {
    if left <= 0 then 0 else if left < room then left else room
  }

  lemma {:induction false} RoomGrows(states: seq<Staff>, i: nat, j: nat)
    requires i <= j <= |states|
    ensures RoomBefore(states, i) <= RoomBefore(states, j)
  {
    if i < j {
      RoomGrows(states, i, j - 1);
    }
  }

  lemma RoomStep(pool: Pool, mode: Mode, sim: Sim, i: nat)
    requires ValidSim(sim) && i < |sim.states| && pool.strategy.SourceAllocation?
    ensures SourceRoom(Advance(pool, mode, sim).states[i])
         == SourceRoom(sim.states[i]) - if Choose(pool, mode, sim).0 == Some(i) then 1 else 0
    ensures Advance(pool, mode, sim).states[i].periodAssignments
         == sim.states[i].periodAssignments + if Choose(pool, mode, sim).0 == Some(i) then 1 else 0
  {
  }

  /** Where the first k customers left everybody. */
  ghost predicate FilledUpTo(states: seq<Staff>, now: seq<Staff>, k: nat) {
    |now| == |states| && forall i :: 0 <= i < |states| ==> FilledTo(states[i], now[i], Filled(states, k, i))
  }

  /** The same staff member, after so many customers. */
  predicate FilledTo(s: Staff, now: Staff, got: nat) {
    SourceRoom(now) == SourceRoom(s) - got && now.periodAssignments == s.periodAssignments + got
  }

  lemma FullReaches(states: seq<Staff>, k: nat, j: nat, next: nat)
    requires j < |states| && next == j + 1
    requires Filled(states, k, j) == SourceRoom(states[j]) && RoomBefore(states, j) <= k
    ensures RoomBefore(states, next) <= k
  {
  }

  ghost predicate FullUpTo(states: seq<Staff>, k: nat, v: nat) {
    v <= |states| && forall j :: 0 <= j < v ==> Filled(states, k, j) == SourceRoom(states[j])
  }

  /** If everybody before v is full, their room is used up. */
  lemma {:induction false} FullBefore(states: seq<Staff>, k: nat, v: nat)
    requires FullUpTo(states, k, v)
    ensures RoomBefore(states, v) <= k
  {
    if v > 0 {
      var before := v - 1;
      FullBefore(states, k, before);
      FullReaches(states, k, before, v);
    }
  }

  /** The first staff member that is not full yet. */
  ghost predicate NextToFill(states: seq<Staff>, k: nat, b: Option<nat>) {
    && (b.Some? ==> b.value < |states| && Filled(states, k, b.value) < SourceRoom(states[b.value]))
    && FullUpTo(states, k, if b.Some? then b.value else |states|)
  }

  lemma FilledNext(states: seq<Staff>, k: nat, i: nat, b: Option<nat>)
    requires i < |states| && NextToFill(states, k, b)
    ensures Filled(states, k + 1, i) == Filled(states, k, i) + if b == Some(i) then 1 else 0
  {
    if b.Some? {
      FullBefore(states, k, b.value);
      if b.value < i {
        var next := b.value + 1;
        RoomGrows(states, next, i);
        NotYet(states, k, b.value, next);
      }
    }
  }

  /** While somebody is not full, nothing is left for those behind. */
  lemma NotYet(states: seq<Staff>, k: nat, b: nat, next: nat)
    requires b < |states| && next == b + 1 && RoomBefore(states, b) <= k && Filled(states, k, b) < SourceRoom(states[b])
    ensures k < RoomBefore(states, next)
  {
  }

  lemma NoneToFill(states: seq<Staff>, k: nat, b: Option<nat>)
    requires NextToFill(states, k, b)
    ensures b.None? <==> RoomBefore(states, |states|) <= k
  {
    if b.None? {
      FullBefore(states, k, |states|);
    } else {
      var next := b.value + 1;
      FullBefore(states, k, b.value);
      NotYet(states, k, b.value, next);
      RoomGrows(states, next, |states|);
    }
  }

  lemma FirstOpenFills(states: seq<Staff>, now: seq<Staff>, k: nat)
    requires FilledUpTo(states, now, k)
    ensures NextToFill(states, k, FirstOpen(now, 0))
  {
    forall j | 0 <= j < |states|
      ensures Filled(states, k, j) < SourceRoom(states[j]) <==> SourceOpen(now[j])
    {
      assert FilledTo(states[j], now[j], Filled(states, k, j));
    }
  }

  lemma StaffFills(pool: Pool, mode: Mode, states: seq<Staff>, sim: Sim, k: nat, n: nat, i: nat)
    requires ValidSim(sim) && pool.strategy.SourceAllocation? && FilledUpTo(states, sim.states, k)
    requires i < |states| && n == k + 1
    ensures FilledTo(states[i], Advance(pool, mode, sim).states[i], Filled(states, n, i))
  {
    assert FilledTo(states[i], sim.states[i], Filled(states, k, i));
    FirstOpenFills(states, sim.states, k);
    RoomStep(pool, mode, sim, i);
    FilledNext(states, k, i, Choose(pool, mode, sim).0);
  }

  lemma ChoiceFills(pool: Pool, mode: Mode, states: seq<Staff>, sim: Sim, k: nat, n: nat)
    requires ValidSim(sim) && pool.strategy.SourceAllocation? && FilledUpTo(states, sim.states, k) && n == k + 1
    ensures FilledUpTo(states, Advance(pool, mode, sim).states, n)
  {
    forall i | 0 <= i < |states|
      ensures FilledTo(states[i], Advance(pool, mode, sim).states[i], Filled(states, n, i))
    {
      StaffFills(pool, mode, states, sim, k, n, i);
    }
  }

  lemma FallsBack(pool: Pool, mode: Mode, states: seq<Staff>, sim: Sim, k: nat)
    requires ValidSim(sim) && pool.strategy.SourceAllocation? && FilledUpTo(states, sim.states, k)
    ensures Choose(pool, mode, sim).0.None? <==> RoomBefore(states, |states|) <= k
  {
    FirstOpenFills(states, sim.states, k);
    NoneToFill(states, k, FirstOpen(sim.states, 0));
  }

  ghost predicate FilledAt(pool: Pool, mode: Mode, sim: Sim, k: nat)
    requires ValidSim(sim)
  {
    FilledUpTo(sim.states, After(pool, mode, sim, k).states, k)
  }

  lemma FilledStep(pool: Pool, mode: Mode, sim: Sim, k: nat, n: nat)
    requires ValidSim(sim) && pool.strategy.SourceAllocation? && FilledAt(pool, mode, sim, k) && n == k + 1
    ensures FilledAt(pool, mode, sim, n)
  {
    var now, next := After(pool, mode, sim, k), After(pool, mode, sim, n);
    assert next == Advance(pool, mode, now);
    ChoiceFills(pool, mode, sim.states, now, k, n);
  }

  lemma {:induction false} AlwaysFilled(pool: Pool, mode: Mode, sim: Sim, k: nat)
    requires ValidSim(sim) && pool.strategy.SourceAllocation?
    ensures FilledAt(pool, mode, sim, k)
  {
    if k > 0 {
      var before := k - 1;
      AlwaysFilled(pool, mode, sim, before);
      FilledStep(pool, mode, sim, before, k);
    }
  }

  /** The closed form of source allocation: the open staff fill up in list order, each taking the smaller of its room and
      the customers those before it leave; a customer falls back exactly when all room is used up. */
  lemma SourceClosedForm(pool: Pool, mode: Mode, sim: Sim, k: nat)
    requires ValidSim(sim) && pool.strategy.SourceAllocation?
    ensures forall i :: 0 <= i < |sim.states| ==> Gain(pool, mode, sim, k, i) == Filled(sim.states, k, i)
    ensures forall t :: 0 <= t < k ==>
      (Slots(pool, mode, sim, k)[t].Unassigned? <==> RoomBefore(sim.states, |sim.states|) <= t)
  {
    AlwaysFilled(pool, mode, sim, k);
    forall i | 0 <= i < |sim.states|
      ensures Gain(pool, mode, sim, k, i) == Filled(sim.states, k, i)
    {
      assert FilledTo(sim.states[i], After(pool, mode, sim, k).states[i], Filled(sim.states, k, i));
    }
    forall t | 0 <= t < k
      ensures Slots(pool, mode, sim, k)[t].Unassigned? <==> RoomBefore(sim.states, |sim.states|) <= t
    {
      AlwaysFilled(pool, mode, sim, t);
      FallsBack(pool, mode, sim.states, After(pool, mode, sim, t), t);
    }
  }

  /** Source allocation does not look at quotas: after k customers a staff member is over its period cap exactly when what
      it gets, by the closed form, is more than was left of the cap. */
  lemma SourceIgnoresQuota(pool: Pool, mode: Mode, sim: Sim, k: nat, i: nat)
    requires ValidSim(sim) && pool.strategy.SourceAllocation? && i < |sim.states|
    requires sim.states[i].capPeriod.Some? && sim.states[i].periodCap != 0
    ensures After(pool, mode, sim, k).states[i].periodAssignments > sim.states[i].periodCap
       <==> Filled(sim.states, k, i) > sim.states[i].periodCap - sim.states[i].periodAssignments
  {
    AlwaysFilled(pool, mode, sim, k);
    assert FilledTo(sim.states[i], After(pool, mode, sim, k).states[i], Filled(sim.states, k, i));
  }

  /** So within a period quota at the start, some count of customers takes it past the quota exactly when it is open with
      more room than is left of the quota. */
  lemma QuotaPassable(pool: Pool, mode: Mode, sim: Sim, i: nat)
    requires ValidSim(sim) && pool.strategy.SourceAllocation? && i < |sim.states|
    requires sim.states[i].capPeriod.Some? && sim.states[i].periodCap != 0
    requires sim.states[i].periodAssignments <= sim.states[i].periodCap
    ensures (exists k: nat :: After(pool, mode, sim, k).states[i].periodAssignments > sim.states[i].periodCap)
       <==> SourceRoom(sim.states[i]) > sim.states[i].periodCap - sim.states[i].periodAssignments
  {
    var s := sim.states[i];
    if SourceRoom(s) > s.periodCap - s.periodAssignments {
      var k := RoomBefore(sim.states, i) + SourceRoom(s);
      SourceIgnoresQuota(pool, mode, sim, k, i);
    }
    forall k: nat | After(pool, mode, sim, k).states[i].periodAssignments > s.periodCap
      ensures SourceRoom(s) > s.periodCap - s.periodAssignments
    {
      SourceIgnoresQuota(pool, mode, sim, k, i);
    }
  }
}
