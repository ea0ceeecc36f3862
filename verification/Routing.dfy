/** Staff, weights and the eligibility gates of the distribution simulator. */
module Routing {
  import opened Ordering

  datatype CapPeriod = Daily | Weekly | Monthly

  datatype Staff = Staff(
    actorId: string,
    role: string,
    online: bool,
    currentCapacity: int,
    maxCapacity: int,
    periodAssignments: int,
    periodCap: int,
    capPeriod: Option<CapPeriod>)

  datatype Weight = Weight(recipientActorId: string, weight: nat)

  predicate AtCapacity(s: Staff) {
    s.currentCapacity >= s.maxCapacity
  }

  /** A missing period or a cap of 0 means "no quota". */
  predicate QuotaExhausted(s: Staff) {
    s.capPeriod.Some? && s.periodCap != 0 && s.periodAssignments >= s.periodCap
  }

  predicate Eligible(s: Staff) {
    s.online && !AtCapacity(s) && !QuotaExhausted(s)
  }

  /** Online, below maxCapacity and, where a quota applies, below that too. */
  predicate HasRoom(s: Staff) {
    && s.online && s.currentCapacity < s.maxCapacity
    && (s.capPeriod.None? || s.periodCap == 0 || s.periodAssignments < s.periodCap)
  }

  /** One customer handed to `s`. */
  function Served(s: Staff): Staff {
    s.(currentCapacity := s.currentCapacity + 1, periodAssignments := s.periodAssignments + 1)
  }

  /** The weight of the first entry naming `id`, 0 when there is none. */
  function WeightOf(weights: seq<Weight>, id: string): nat {
    if weights == [] then 0
    else if weights[0].recipientActorId == id then weights[0].weight
    else WeightOf(weights[1..], id)
  }

  function TotalWeight(weights: seq<Weight>): nat {
    if weights == [] then 0 else weights[0].weight + TotalWeight(weights[1..])
  }

  function Flags(states: seq<Staff>): (flags: seq<bool>)
    ensures |flags| == |states|
    ensures forall i :: 0 <= i < |states| ==> flags[i] == Eligible(states[i])
  {
    seq(|states|, i requires 0 <= i < |states| => Eligible(states[i]))
  }

  function StaffWeights(states: seq<Staff>, weights: seq<Weight>): (w: seq<int>)
    ensures |w| == |states|
    ensures forall i :: 0 <= i < |states| ==> w[i] == WeightOf(weights, states[i].actorId) >= 0
  {
    seq(|states|, i requires 0 <= i < |states| => WeightOf(weights, states[i].actorId) as int)
  }

  ghost predicate DistinctStaff(states: seq<Staff>) {
    forall i, j :: 0 <= i < j < |states| ==> states[i].actorId != states[j].actorId
  }

  ghost predicate DistinctWeights(weights: seq<Weight>) {
    forall i, j :: 0 <= i < j < |weights| ==> weights[i].recipientActorId != weights[j].recipientActorId
  }

  /** Customers `s` can still take: capacity left, further limited by quota left when a quota applies. */
  function Headroom(s: Staff): (h: nat)
    ensures h > 0 <==> Eligible(s)
  {
    if !Eligible(s) then 0
    else
      var room := s.maxCapacity - s.currentCapacity;
      if s.capPeriod.Some? && s.periodCap != 0 && s.periodCap - s.periodAssignments < room
      then s.periodCap - s.periodAssignments
      else room
  }

  lemma ServedHeadroom(s: Staff)
    requires Eligible(s)
    ensures Headroom(Served(s)) == Headroom(s) - 1
  {
  }

  // ----------------------------------------- weights seen from the staff side

  lemma {:induction false} WeightOfMember(weights: seq<Weight>, k: nat)
    requires k < |weights| && DistinctWeights(weights)
    ensures WeightOf(weights, weights[k].recipientActorId) == weights[k].weight
  {
    if k > 0 {
      assert weights[0].recipientActorId != weights[k].recipientActorId;
      WeightOfMember(weights[1..], k - 1);
    }
  }

  lemma {:induction false} WeightOfAbsent(weights: seq<Weight>, id: string)
    requires forall k :: 0 <= k < |weights| ==> weights[k].recipientActorId != id
    ensures WeightOf(weights, id) == 0
  {
    if weights != [] {
      WeightOfAbsent(weights[1..], id);
    }
  }

  lemma {:induction false} TotalWeightWithout(weights: seq<Weight>, k: nat)
    requires k < |weights|
    ensures TotalWeight(weights) == weights[k].weight + TotalWeight(Without(weights, k))
  {
    if k == 0 {
      assert Without(weights, 0) == weights[1..];
    } else {
      TotalWeightWithout(weights[1..], k - 1);
      assert Without(weights, k) == [weights[0]] + Without(weights[1..], k - 1);
    }
  }

  lemma {:induction false} WeightOfWithout(weights: seq<Weight>, k: nat, id: string)
    requires k < |weights| && weights[k].recipientActorId != id
    ensures WeightOf(Without(weights, k), id) == WeightOf(weights, id)
  {
    if k == 0 {
      assert Without(weights, 0) == weights[1..];
    } else {
      WeightOfWithout(weights[1..], k - 1, id);
      assert Without(weights, k) == [weights[0]] + Without(weights[1..], k - 1);
    }
  }

  lemma StaffWeightsWithout(states: seq<Staff>, weights: seq<Weight>, k: nat)
    requires states != [] && k < |weights| && weights[k].recipientActorId == states[0].actorId
    requires DistinctStaff(states)
    ensures StaffWeights(states[1..], Without(weights, k)) == StaffWeights(states, weights)[1..]
  {
    forall i | 0 <= i < |states| - 1
      ensures WeightOf(Without(weights, k), states[1..][i].actorId) == WeightOf(weights, states[i + 1].actorId)
    {
      WeightOfWithout(weights, k, states[i + 1].actorId);
    }
  }

  /** Every positive weight names a member of the staff. */
  ghost predicate AllStaffed(states: seq<Staff>, weights: seq<Weight>) {
    forall k :: 0 <= k < |weights| && weights[k].weight > 0 ==>
      exists i :: 0 <= i < |states| && states[i].actorId == weights[k].recipientActorId
  }

  lemma AllStaffedTail(states: seq<Staff>, weights: seq<Weight>, rest: seq<Weight>)
    requires states != [] && AllStaffed(states, weights)
    requires forall w :: w in rest ==> w in weights && w.recipientActorId != states[0].actorId
    ensures AllStaffed(states[1..], rest)
  {
    forall q | 0 <= q < |rest| && rest[q].weight > 0
      ensures exists i :: 0 <= i < |states[1..]| && states[1..][i].actorId == rest[q].recipientActorId
    {
      assert rest[q] in weights;
      var orig :| 0 <= orig < |weights| && weights[orig] == rest[q];
      var i :| 0 <= i < |states| && states[i].actorId == weights[orig].recipientActorId;
      assert states[1..][i - 1] == states[i];
    }
  }

  /** With distinct ids, the staff's weights add up to no more than the pool total,
      and to exactly the total when every positive weight names a staff member. */
  lemma {:induction false} StaffWeightsTotal(states: seq<Staff>, weights: seq<Weight>)
    requires DistinctStaff(states) && DistinctWeights(weights)
    ensures Sum(StaffWeights(states, weights)) <= TotalWeight(weights)
    ensures AllStaffed(states, weights) ==> Sum(StaffWeights(states, weights)) == TotalWeight(weights)
  {
    if states == [] {
      if AllStaffed(states, weights) {
        ZeroTotal(weights);
      }
    } else {
      var id := states[0].actorId;
      var rest := weights;
      if k :| 0 <= k < |weights| && weights[k].recipientActorId == id {
        rest := Without(weights, k);
        WeightOfMember(weights, k);
        TotalWeightWithout(weights, k);
        StaffWeightsWithout(states, weights, k);
      } else {
        WeightOfAbsent(weights, id);
        assert StaffWeights(states[1..], weights) == StaffWeights(states, weights)[1..];
      }
      StaffWeightsTotal(states[1..], rest);
      if AllStaffed(states, weights) {
        AllStaffedTail(states, weights, rest);
      }
    }
  }

  lemma {:induction false} ZeroTotal(weights: seq<Weight>)
    requires forall k :: 0 <= k < |weights| ==> weights[k].weight == 0
    ensures TotalWeight(weights) == 0
  {
    if weights != [] {
      ZeroTotal(weights[1..]);
    }
  }
}
