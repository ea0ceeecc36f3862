/** The largest-remainder (Hamilton) plan: conservation, quota rule, optimality, order independence. */
module LargestRemainder {
  import opened Ordering
  import opened Routing

  /** `fraction` is the numerator of the fractional part over the total weight of the plan. */
  datatype QuotaPlan = QuotaPlan(actorId: string, baseCount: int, fraction: nat)

  // ------------------------------------------------------------------ the plan

  function EligibleIds(states: seq<Staff>): set<string> {
    set s | s in states && Eligible(s) :: s.actorId
  }

  function EligibleWeights(weights: seq<Weight>, states: seq<Staff>): seq<Weight> {
    var ids := EligibleIds(states);
    Filter((w: Weight) => w.recipientActorId in ids && w.weight > 0, weights)
  }

  function WeightValues(ws: seq<Weight>): seq<int> {
    Map((w: Weight) => w.weight as int, ws)
  }

  /** floor(N*w/W) and the remainder N*w mod W; `/` and `%` floor because W > 0. */
  function Base(N: int, W: int, w: Weight): QuotaPlan
    requires W > 0
  {
    QuotaPlan(w.recipientActorId, (N * w.weight) / W, (N * w.weight) % W)
  }

  function BasePlans(N: int, W: int, ws: seq<Weight>): (plans: seq<QuotaPlan>)
    requires W > 0
    ensures |plans| == |ws|
    ensures forall i :: 0 <= i < |ws| ==> plans[i] == Base(N, W, ws[i])
  {
    Map((w: Weight) => Base(N, W, w), ws)
  }

  /** Larger fraction first, then actorId ascending. */
  predicate Outranks(a: QuotaPlan, b: QuotaPlan) {
    a.fraction > b.fraction || (a.fraction == b.fraction && AtMost(a.actorId, b.actorId))
  }

  function BaseCounts(plans: seq<QuotaPlan>): (c: seq<int>)
    ensures |c| == |plans|
    ensures forall i :: 0 <= i < |plans| ==> c[i] == plans[i].baseCount
  {
    Map((p: QuotaPlan) => p.baseCount, plans)
  }

  /** One more for each of the first `extra` plans. */
  function TopUp(plans: seq<QuotaPlan>, extra: int): (r: seq<QuotaPlan>)
    ensures |r| == |plans|
    ensures forall i :: 0 <= i < |plans| ==>
      r[i] == if i < extra then plans[i].(baseCount := plans[i].baseCount + 1) else plans[i]
  {
    seq(|plans|, i requires 0 <= i < |plans| =>
      if i < extra then plans[i].(baseCount := plans[i].baseCount + 1) else plans[i])
  }

  function Remainder(N: int, plans: seq<QuotaPlan>): int {
    N - Sum(BaseCounts(plans))
  }

  function QuotaPlans(N: int, weights: seq<Weight>, states: seq<Staff>): seq<QuotaPlan> {
    var ws := EligibleWeights(weights, states);
    if ws == [] then []
    else
      PositiveTotal(ws);
      var plans := BasePlans(N, Sum(WeightValues(ws)), ws);
      TopUp(Sort(plans, Outranks), Remainder(N, plans))
  }

  lemma {:induction false} PositiveTotal(ws: seq<Weight>)
    requires forall i :: 0 <= i < |ws| ==> ws[i].weight > 0
    ensures Sum(WeightValues(ws)) >= |ws|
  {
    if ws != [] {
      PositiveTotal(ws[1..]);
    }
  }

  /** The plan, its remainder handed out in place after the sort. */
  method ComputeQuotaPlan(N: int, weights: seq<Weight>, states: seq<Staff>) returns (plans: seq<QuotaPlan>)
    ensures plans == QuotaPlans(N, weights, states)
  {
    var eligibleWeights := EligibleWeights(weights, states);
    if |eligibleWeights| == 0 {
      return [];
    }
    PositiveTotal(eligibleWeights);
    var totalW := Sum(WeightValues(eligibleWeights));
    plans := BasePlans(N, totalW, eligibleWeights);
    var granted := Sum(BaseCounts(plans));
    var remainder := N - granted;
    RemainderRange(N, totalW, eligibleWeights);
    if remainder < 0 {
      remainder := 0;
    }
    plans := Sort(plans, Outranks);
    ghost var ranked := plans;
    var i := 0;
    while i < remainder && i < |plans|
      invariant 0 <= i <= |plans| && (i <= remainder || i == 0)
      invariant plans == TopUp(ranked, i)
    {
      plans := plans[i := plans[i].(baseCount := plans[i].baseCount + 1)];
      i := i + 1;
    }
    SortPermutes(BasePlans(N, totalW, eligibleWeights), Outranks);
  }

  // -------------------------------------------------------------- conservation

  lemma {:induction false} DivisionTotals(N: int, W: int, ws: seq<Weight>)
    requires W > 0
    ensures W * Sum(BaseCounts(BasePlans(N, W, ws))) + Sum(Fractions(BasePlans(N, W, ws)))
         == N * Sum(WeightValues(ws))
  {
    var plans := BasePlans(N, W, ws);
    if ws != [] {
      var rest := BasePlans(N, W, ws[1..]);
      assert plans[1..] == rest;
      DivisionTotals(N, W, ws[1..]);
      assert BaseCounts(plans)[1..] == BaseCounts(rest);
      assert Fractions(plans)[1..] == Fractions(rest);
      assert WeightValues(ws)[1..] == WeightValues(ws[1..]);
      DivisionStep(N, W, ws[0].weight, Sum(BaseCounts(rest)), Sum(Fractions(rest)), Sum(WeightValues(ws[1..])));
    }
  }

  lemma DivisionStep(N: int, W: int, w: int, bases: int, fractions: int, weights: int)
    requires W > 0 && W * bases + fractions == N * weights
    ensures W * ((N * w) / W + bases) + ((N * w) % W + fractions) == N * (w + weights)
  {
    var q, r := (N * w) / W, (N * w) % W;
    assert W * (q + bases) == W * q + W * bases;
    assert N * (w + weights) == N * w + N * weights;
  }

  function Fractions(plans: seq<QuotaPlan>): (f: seq<int>)
    ensures |f| == |plans|
    ensures forall i :: 0 <= i < |plans| ==> f[i] == plans[i].fraction
  {
    Map((p: QuotaPlan) => p.fraction as int, plans)
  }

  lemma {:induction false} FractionsBelow(N: int, W: int, ws: seq<Weight>)
    requires W > 0
    ensures 0 <= Sum(Fractions(BasePlans(N, W, ws)))
    ensures ws != [] ==> Sum(Fractions(BasePlans(N, W, ws))) < W * |ws|
  {
    var plans := BasePlans(N, W, ws);
    if ws != [] {
      FractionsBelow(N, W, ws[1..]);
      assert plans[1..] == BasePlans(N, W, ws[1..]);
      assert Fractions(plans)[1..] == Fractions(plans[1..]);
      ProductNext(W, |ws[1..]|);
    }
  }

  lemma QuotientRange(W: int, k: int, n: int, f: int)
    requires W > 0 && W * k == f && 0 <= f < W * n
    ensures 0 <= k < n
  {
    if k < 0 {
      ProductOrder(W, -1, k);
    }
    if k >= n {
      ProductOrder(W, k, n);
    }
  }

  /** The seats left over are between 0 and one fewer than the number of plans, for every N. */
  lemma RemainderRange(N: int, W: int, ws: seq<Weight>)
    requires W > 0 && ws != [] && Sum(WeightValues(ws)) == W
    ensures W * Remainder(N, BasePlans(N, W, ws)) == Sum(Fractions(BasePlans(N, W, ws)))
    ensures 0 <= Remainder(N, BasePlans(N, W, ws)) < |ws|
  {
    var plans := BasePlans(N, W, ws);
    DivisionTotals(N, W, ws);
    FractionsBelow(N, W, ws);
    var bases, f := Sum(BaseCounts(plans)), Sum(Fractions(plans));
    assert W * (N - bases) == W * N - W * bases;
    QuotientRange(W, N - bases, |ws|, f);
  }

  // ------------------------------------------------------- the ranked weights

  /** The eligible weights in the order of their plans. */
  lemma Ranking(N: int, W: int, ws: seq<Weight>) returns (ranked: seq<Weight>)
    requires W > 0
    ensures Sort(BasePlans(N, W, ws), Outranks) == BasePlans(N, W, ranked)
    ensures multiset(ranked) == multiset(ws) && |ranked| == |ws|
  {
    var base := (w: Weight) => Base(N, W, w);
    ranked := SortMap(base, ws, Outranks);
    SameMembers(ranked, ws);
    assert BasePlans(N, W, ws) == Map(base, ws);
    assert BasePlans(N, W, ranked) == Map(base, ranked);
  }

  lemma OutranksTotalPreorder()
    ensures TotalPreorder(Outranks)
  {
    forall a, b
      ensures Outranks(a, b) || Outranks(b, a)
    {
      AtMostTotalOrder(a.actorId, b.actorId, b.actorId);
    }
    forall a, b, c | Outranks(a, b) && Outranks(b, c)
      ensures Outranks(a, c)
    {
      AtMostTotalOrder(a.actorId, b.actorId, c.actorId);
    }
  }

  lemma SamePlanTotals(N: int, W: int, a: seq<Weight>, b: seq<Weight>)
    requires W > 0 && multiset(a) == multiset(b)
    ensures Sum(WeightValues(a)) == Sum(WeightValues(b))
    ensures Remainder(N, BasePlans(N, W, a)) == Remainder(N, BasePlans(N, W, b))
  {
    MapPermutes((w: Weight) => w.weight as int, a, b);
    SumPermutation(WeightValues(a), WeightValues(b));
    MapPermutes((w: Weight) => Base(N, W, w), a, b);
    MapPermutes((p: QuotaPlan) => p.baseCount, BasePlans(N, W, a), BasePlans(N, W, b));
    SumPermutation(BaseCounts(BasePlans(N, W, a)), BaseCounts(BasePlans(N, W, b)));
  }

  /** What a non-empty plan is made of, rank by rank. */
  lemma PlanAnatomy(N: int, weights: seq<Weight>, states: seq<Staff>) returns (W: int, ranked: seq<Weight>, extra: int)
    requires EligibleWeights(weights, states) != []
    ensures multiset(ranked) == multiset(EligibleWeights(weights, states))
    ensures W > 0 && Sum(WeightValues(ranked)) == W == Sum(WeightValues(EligibleWeights(weights, states)))
    ensures QuotaPlans(N, weights, states) == TopUp(BasePlans(N, W, ranked), extra)
    ensures extra == Remainder(N, BasePlans(N, W, ranked)) && 0 <= extra < |ranked|
    ensures Sorted(BasePlans(N, W, ranked), Outranks)
  {
    var ws := EligibleWeights(weights, states);
    PositiveTotal(ws);
    W := Sum(WeightValues(ws));
    ranked := Ranking(N, W, ws);
    SamePlanTotals(N, W, ws, ranked);
    extra := Remainder(N, BasePlans(N, W, ws));
    RemainderRange(N, W, ranked);
    OutranksTotalPreorder();
    SortSorts(BasePlans(N, W, ws), Outranks);
  }

  // -------------------------------------------------------------- conservation

  lemma {:induction false} TopUpTotal(plans: seq<QuotaPlan>, extra: nat)
    requires extra <= |plans|
    ensures Sum(BaseCounts(TopUp(plans, extra))) == Sum(BaseCounts(plans)) + extra
  {
    if extra > 0 {
      TopUpTotal(plans, extra - 1);
      var before, after := BaseCounts(TopUp(plans, extra - 1)), BaseCounts(TopUp(plans, extra));
      SumUpdate(before, extra - 1, before[extra - 1] + 1);
      assert after == before[extra - 1 := before[extra - 1] + 1];
    } else {
      assert TopUp(plans, 0) == plans;
    }
  }

  /** The plan hands out exactly N seats, whatever N is. */
  lemma PlanConserves(N: int, weights: seq<Weight>, states: seq<Staff>)
    requires EligibleWeights(weights, states) != []
    ensures Sum(BaseCounts(QuotaPlans(N, weights, states))) == N
  {
    var W, ranked, extra := PlanAnatomy(N, weights, states);
    TopUpTotal(BasePlans(N, W, ranked), extra);
  }

  lemma {:induction false} ZeroTail(f: seq<int>, W: int, k: nat)
    requires k <= |f| && W > 0
    requires forall i :: 0 <= i < |f| ==> 0 <= f[i] < W
    requires forall i :: k <= i < |f| ==> f[i] == 0
    ensures k > 0 ==> Sum(f) < W * k
    ensures k == 0 ==> Sum(f) == 0
  {
    if f != [] {
      if k == 0 {
        SumZero(f);
      } else {
        ZeroTail(f[1..], W, k - 1);
        ProductNext(W, k - 1);
      }
    }
  }

  lemma FractionsAfterZero(plans: seq<QuotaPlan>, i: nat)
    requires i < |plans| && Sorted(plans, Outranks) && plans[i].fraction == 0
    ensures forall j :: i <= j < |plans| ==> Fractions(plans)[j] == 0
  {
    forall j | i < j < |plans|
      ensures plans[j].fraction == 0
    {
      assert Outranks(plans[i], plans[j]);
    }
  }

  lemma SeatsNeedFractions(W: int, extra: int, i: int)
    requires W > 0 && 0 <= i < extra
    ensures W * extra >= W * i + W
  {
    ProductOrder(W, extra, i + 1);
    ProductNext(W, i);
  }

  /** Nobody with a whole quota gets an extra seat. */
  lemma ExtraOnlyForFractions(N: int, W: int, ranked: seq<Weight>, extra: int, i: int)
    requires W > 0 && ranked != [] && Sum(WeightValues(ranked)) == W
    requires extra == Remainder(N, BasePlans(N, W, ranked)) && 0 <= i < extra < |ranked|
    requires Sorted(BasePlans(N, W, ranked), Outranks)
    ensures BasePlans(N, W, ranked)[i].fraction > 0
  {
    var plans := BasePlans(N, W, ranked);
    RemainderRange(N, W, ranked);
    if plans[i].fraction == 0 {
      FractionsAfterZero(plans, i);
      ZeroTail(Fractions(plans), W, i);
      SeatsNeedFractions(W, extra, i);
      assert false;
    }
  }

  lemma QuotaBounds(N: int, W: int, w: Weight, extra: bool)
    requires W > 0 && (extra ==> Base(N, W, w).fraction > 0)
    ensures var count := Base(N, W, w).baseCount + if extra then 1 else 0;
      W * count - W < N * w.weight < W * count + W
  {
    ProductNext(W, Base(N, W, w).baseCount);
  }

  /** A plan names an eligible positive weight and gets its quota N*w/W rounded down or up. */
  ghost predicate Rounded(N: int, W: int, w: Weight, plan: QuotaPlan) {
    w.recipientActorId == plan.actorId && W * plan.baseCount - W < N * w.weight < W * plan.baseCount + W
  }

  lemma RankedQuotaRule(N: int, W: int, ranked: seq<Weight>, extra: int, i: int)
    requires W > 0 && 0 <= i < |ranked| && Sum(WeightValues(ranked)) == W
    requires extra == Remainder(N, BasePlans(N, W, ranked)) && 0 <= extra < |ranked|
    requires Sorted(BasePlans(N, W, ranked), Outranks)
    ensures Rounded(N, W, ranked[i], TopUp(BasePlans(N, W, ranked), extra)[i])
  {
    if i < extra {
      ExtraOnlyForFractions(N, W, ranked, extra, i);
    }
    QuotaBounds(N, W, ranked[i], i < extra);
  }

  lemma EligibleQuotaRule(N: int, weights: seq<Weight>, states: seq<Staff>, i: nat) returns (w: Weight)
    requires i < |QuotaPlans(N, weights, states)|
    ensures w in EligibleWeights(weights, states)
    ensures Rounded(N, Sum(WeightValues(EligibleWeights(weights, states))), w, QuotaPlans(N, weights, states)[i])
  {
    var W, ranked, extra := PlanAnatomy(N, weights, states);
    w := ranked[i];
    RankedQuotaRule(N, W, ranked, extra, i);
    RankedMember(weights, states, ranked, i);
  }

  lemma RankedMember(weights: seq<Weight>, states: seq<Staff>, ranked: seq<Weight>, i: nat)
    requires multiset(ranked) == multiset(EligibleWeights(weights, states)) && i < |ranked|
    ensures ranked[i] in EligibleWeights(weights, states)
    ensures ranked[i] in weights
  {
    SameMembers(ranked, EligibleWeights(weights, states));
  }

  // ---------------------------------------------------------------- optimality

  function Abs(x: int): nat {
    if x < 0 then -x else x
  }

  /** How far the allocation x is from the exact shares, scaled by W. */
  function Deviations(N: int, W: int, ws: seq<Weight>, x: seq<int>): (d: seq<int>)
    requires |x| == |ws|
    ensures |d| == |ws|
    ensures forall i :: 0 <= i < |ws| ==> d[i] == Abs(x[i] * W - N * ws[i].weight)
  {
    seq(|ws|, i requires 0 <= i < |ws| => Abs(x[i] * W - N * ws[i].weight))
  }

  /** Charging each seat a fixed price makes the planned count the cheapest one in its row. */
  lemma RowOptimal(W: int, share: int, q: int, r: int, threshold: int, extra: bool, x: int)
    requires W > 0 && 0 <= r < W && 0 <= threshold < W && share == q * W + r
    requires extra ==> r >= threshold
    requires !extra ==> r <= threshold
    ensures var a := if extra then q + 1 else q;
      Abs(a * W - share) - (W - 2 * threshold) * a <= Abs(x * W - share) - (W - 2 * threshold) * x
  {
    var y := x - q;
    var price := W - 2 * threshold;
    assert x * W - share == y * W - r;
    assert price * x == price * q + price * y;
    assert price * (q + 1) == price * q + price;
    assert (q + 1) * W - share == W - r;
    if y <= 0 {
      NonPositiveSteps(W, r, threshold, y);
    } else {
      PositiveSteps(W, r, threshold, y);
    }
  }

  lemma NonPositiveSteps(W: int, r: int, threshold: int, y: int)
    requires W > 0 && 0 <= r < W && 0 <= threshold < W && y <= 0
    ensures y * W <= 0
    ensures r - y * W - (W - 2 * threshold) * y >= r
  {
    assert y * W + (W - 2 * threshold) * y == 2 * (y * (W - threshold));
    assert y * (W - threshold) <= 0;
  }

  lemma PositiveSteps(W: int, r: int, threshold: int, y: int)
    requires W > 0 && 0 <= r < W && 0 <= threshold < W && y >= 1
    ensures y * W >= W
    ensures y * W - r - (W - 2 * threshold) * y >= 2 * threshold - r
  {
    ProductOrder(W, y, 1);
    assert y * W - (W - 2 * threshold) * y == 2 * (threshold * y);
    if threshold > 0 {
      ProductOrder(threshold, y, 1);
    }
  }

  lemma {:induction false} PricedComparison(da: seq<int>, a: seq<int>, dx: seq<int>, x: seq<int>, price: int)
    requires |da| == |a| == |dx| == |x|
    requires forall i :: 0 <= i < |a| ==> da[i] - price * a[i] <= dx[i] - price * x[i]
    ensures Sum(da) - price * Sum(a) <= Sum(dx) - price * Sum(x)
  {
    if a != [] {
      PricedComparison(da[1..], a[1..], dx[1..], x[1..], price);
      assert price * (a[0] + Sum(a[1..])) == price * a[0] + price * Sum(a[1..]);
      assert price * (x[0] + Sum(x[1..])) == price * x[0] + price * Sum(x[1..]);
    }
  }

  lemma QuotientAndRemainder(n: int, W: int)
    requires W > 0
    ensures n == (n / W) * W + n % W && 0 <= n % W < W
  {
  }

  lemma BaseRow(N: int, W: int, w: Weight, threshold: int, extra: bool, x: int)
    requires W > 0 && 0 <= threshold < W
    requires extra ==> Base(N, W, w).fraction >= threshold
    requires !extra ==> Base(N, W, w).fraction <= threshold
    ensures var a := Base(N, W, w).baseCount + if extra then 1 else 0;
      Abs(a * W - N * w.weight) - (W - 2 * threshold) * a <= Abs(x * W - N * w.weight) - (W - 2 * threshold) * x
  {
    var p := Base(N, W, w);
    QuotientAndRemainder(N * w.weight, W);
    RowOptimal(W, N * w.weight, p.baseCount, p.fraction, threshold, extra, x);
  }

  lemma RankedRow(N: int, W: int, ranked: seq<Weight>, extra: int, i: int)
    requires W > 0 && 0 <= extra < |ranked| && 0 <= i < |ranked|
    requires Sorted(BasePlans(N, W, ranked), Outranks)
    ensures i < extra ==> Base(N, W, ranked[i]).fraction >= Base(N, W, ranked[extra]).fraction
    ensures i >= extra ==> Base(N, W, ranked[i]).fraction <= Base(N, W, ranked[extra]).fraction
    ensures Base(N, W, ranked[extra]).fraction < W
  {
    var plans := BasePlans(N, W, ranked);
    assert i < extra ==> Outranks(plans[i], plans[extra]);
    assert extra < i ==> Outranks(plans[extra], plans[i]);
  }

  lemma RowByRow(N: int, W: int, ranked: seq<Weight>, extra: int, i: int, x: int, threshold: int, price: int)
    requires W > 0 && 0 <= extra < |ranked| && 0 <= i < |ranked|
    requires Sorted(BasePlans(N, W, ranked), Outranks)
    requires threshold == Base(N, W, ranked[extra]).fraction && price == W - 2 * threshold
    ensures var a := TopUp(BasePlans(N, W, ranked), extra)[i].baseCount;
      Abs(a * W - N * ranked[i].weight) - price * a <= Abs(x * W - N * ranked[i].weight) - price * x
  {
    RankedRow(N, W, ranked, extra, i);
    BaseRow(N, W, ranked[i], threshold, i < extra, x);
  }

  lemma DeviationsPriced(N: int, W: int, ws: seq<Weight>, a: seq<int>, x: seq<int>, price: int)
    requires |a| == |x| == |ws|
    requires forall i :: 0 <= i < |ws| ==>
      Abs(a[i] * W - N * ws[i].weight) - price * a[i] <= Abs(x[i] * W - N * ws[i].weight) - price * x[i]
    ensures Sum(Deviations(N, W, ws, a)) - price * Sum(a) <= Sum(Deviations(N, W, ws, x)) - price * Sum(x)
  {
    PricedComparison(Deviations(N, W, ws, a), a, Deviations(N, W, ws, x), x, price);
  }

  lemma AllRows(N: int, W: int, ranked: seq<Weight>, extra: int, x: seq<int>, threshold: int, price: int)
    requires W > 0 && 0 <= extra < |ranked| == |x|
    requires Sorted(BasePlans(N, W, ranked), Outranks)
    requires threshold == Base(N, W, ranked[extra]).fraction && price == W - 2 * threshold
    ensures var a := BaseCounts(TopUp(BasePlans(N, W, ranked), extra));
      Sum(Deviations(N, W, ranked, a)) - price * Sum(a) <= Sum(Deviations(N, W, ranked, x)) - price * Sum(x)
  {
    var a := BaseCounts(TopUp(BasePlans(N, W, ranked), extra));
    forall i | 0 <= i < |ranked|
      ensures Abs(a[i] * W - N * ranked[i].weight) - price * a[i]
           <= Abs(x[i] * W - N * ranked[i].weight) - price * x[i]
    {
      RowByRow(N, W, ranked, extra, i, x[i], threshold, price);
    }
    DeviationsPriced(N, W, ranked, a, x, price);
  }

  lemma RankedOptimal(N: int, W: int, ranked: seq<Weight>, extra: int, x: seq<int>)
    requires W > 0 && Sum(WeightValues(ranked)) == W && 0 <= extra < |ranked|
    requires extra == Remainder(N, BasePlans(N, W, ranked))
    requires Sorted(BasePlans(N, W, ranked), Outranks)
    requires |x| == |ranked| && Sum(x) == N
    ensures Sum(Deviations(N, W, ranked, BaseCounts(TopUp(BasePlans(N, W, ranked), extra))))
         <= Sum(Deviations(N, W, ranked, x))
  {
    var threshold := Base(N, W, ranked[extra]).fraction;
    AllRows(N, W, ranked, extra, x, threshold, W - 2 * threshold);
    TopUpTotal(BasePlans(N, W, ranked), extra);
  }

  /** The distance of the counts x from the exact shares N*w/W of the planned actors, scaled by W. */
  function Distance(N: int, ws: seq<Weight>, plans: seq<QuotaPlan>, x: seq<int>): int
    requires |x| == |plans|
  {
    PoolDistance(N, Sum(WeightValues(ws)), ws, plans, x)
  }

  lemma DistanceIsDeviation(N: int, W: int, ws: seq<Weight>, ranked: seq<Weight>, plans: seq<QuotaPlan>, x: seq<int>)
    requires W == Sum(WeightValues(ws)) && |ranked| == |plans| == |x|
    requires forall i :: 0 <= i < |plans| ==> WeightOf(ws, plans[i].actorId) == ranked[i].weight
    ensures Distance(N, ws, plans, x) == Sum(Deviations(N, W, ranked, x))
  {
    assert Gaps(N, W, ws, plans, x) == Deviations(N, W, ranked, x);
  }

  lemma {:induction false} DistinctSubsequence(p: Weight -> bool, weights: seq<Weight>)
    requires DistinctWeights(weights)
    ensures DistinctWeights(Filter(p, weights))
  {
    if weights != [] {
      DistinctSubsequence(p, weights[1..]);
      var rest := Filter(p, weights[1..]);
      forall j | 0 <= j < |rest|
        ensures rest[j].recipientActorId != weights[0].recipientActorId
      {
        assert rest[j] in weights[1..];
        var k :| 0 <= k < |weights[1..]| && weights[1..][k] == rest[j];
        assert weights[k + 1] == rest[j];
      }
    }
  }

  lemma PlannedWeight(weights: seq<Weight>, states: seq<Staff>, ranked: seq<Weight>, i: nat)
    requires DistinctWeights(weights) && i < |ranked|
    requires multiset(ranked) == multiset(EligibleWeights(weights, states))
    ensures WeightOf(EligibleWeights(weights, states), ranked[i].recipientActorId) == ranked[i].weight
  {
    var ids := EligibleIds(states);
    DistinctSubsequence((w: Weight) => w.recipientActorId in ids && w.weight > 0, weights);
    var ws := EligibleWeights(weights, states);
    RankedMember(weights, states, ranked, i);
    var k :| 0 <= k < |ws| && ws[k] == ranked[i];
    WeightOfMember(ws, k);
  }

  lemma EligibleOptimal(N: int, weights: seq<Weight>, states: seq<Staff>, x: seq<int>)
    requires DistinctWeights(weights)
    requires |x| == |QuotaPlans(N, weights, states)| && Sum(x) == N
    ensures var plans := QuotaPlans(N, weights, states);
      Distance(N, EligibleWeights(weights, states), plans, BaseCounts(plans))
      <= Distance(N, EligibleWeights(weights, states), plans, x)
  {
    var ws := EligibleWeights(weights, states);
    if ws != [] {
      var plans := QuotaPlans(N, weights, states);
      var W, ranked, extra := PlanAnatomy(N, weights, states);
      forall i | 0 <= i < |plans|
        ensures WeightOf(ws, plans[i].actorId) == ranked[i].weight
      {
        PlannedWeight(weights, states, ranked, i);
      }
      RankedOptimal(N, W, ranked, extra, x);
      DistanceIsDeviation(N, W, ws, ranked, plans, x);
      DistanceIsDeviation(N, W, ws, ranked, plans, BaseCounts(plans));
    }
  }

  // ------------------------------------------------------------ who gets extra

  /** The plan gives its actor more than the exact share. */
  ghost predicate RoundedUp(N: int, ws: seq<Weight>, plan: QuotaPlan) {
    Sum(WeightValues(ws)) * plan.baseCount > N * WeightOf(ws, plan.actorId)
  }

  lemma RoundedUpIsExtra(N: int, W: int, w: Weight, extra: bool)
    requires W > 0
    ensures var count := Base(N, W, w).baseCount + if extra then 1 else 0;
      W * count > N * w.weight <==> extra
  {
    ProductNext(W, Base(N, W, w).baseCount);
  }

  lemma TopUpRank(plans: seq<QuotaPlan>, extra: int, i: nat, j: nat)
    requires i < j < |plans| && Sorted(plans, Outranks)
    ensures Outranks(TopUp(plans, extra)[i], TopUp(plans, extra)[j])
  {
    assert Outranks(plans[i], plans[j]);
  }

  lemma RoundedUpAt(N: int, ws: seq<Weight>, W: int, ranked: seq<Weight>, extra: int, i: nat)
    requires W > 0 && W == Sum(WeightValues(ws)) && i < |ranked|
    requires WeightOf(ws, ranked[i].recipientActorId) == ranked[i].weight
    ensures RoundedUp(N, ws, TopUp(BasePlans(N, W, ranked), extra)[i]) <==> i < extra
  {
    RoundedUpIsExtra(N, W, ranked[i], i < extra);
  }

  lemma EligibleRank(N: int, weights: seq<Weight>, states: seq<Staff>, i: nat, j: nat)
    requires DistinctWeights(weights) && i < j < |QuotaPlans(N, weights, states)|
    ensures var plans := QuotaPlans(N, weights, states);
      var ws := EligibleWeights(weights, states);
      Outranks(plans[i], plans[j]) && (RoundedUp(N, ws, plans[j]) ==> RoundedUp(N, ws, plans[i]))
  {
    var W, ranked, extra := PlanAnatomy(N, weights, states);
    TopUpRank(BasePlans(N, W, ranked), extra, i, j);
    PlannedWeight(weights, states, ranked, i);
    PlannedWeight(weights, states, ranked, j);
    RoundedUpAt(N, EligibleWeights(weights, states), W, ranked, extra, i);
    RoundedUpAt(N, EligibleWeights(weights, states), W, ranked, extra, j);
  }

  // ------------------------------------------------------------ who is planned

  /** Somebody of this id can take a customer. */
  predicate Open(states: seq<Staff>, id: string) {
    exists s :: s in states && s.actorId == id && HasRoom(s)
  }

  /** Over the positive weights of those who can. */
  function OpenSum(weights: seq<Weight>, states: seq<Staff>, f: nat -> int): int {
    if weights == [] then 0
    else
      (if weights[0].weight > 0 && Open(states, weights[0].recipientActorId) then f(weights[0].weight) else 0)
      + OpenSum(weights[1..], states, f)
  }

  function OpenWeight(weights: seq<Weight>, states: seq<Staff>): int {
    OpenSum(weights, states, Whole())
  }

  function Whole(): nat -> int {
    w => w
  }

  function RoundedDown(N: int, W: int): nat -> int
    requires W > 0
  {
    w => N * w / W
  }

  /** The seats left after every share is rounded down. */
  function SeatsLeft(N: int, weights: seq<Weight>, states: seq<Staff>): int
    requires OpenWeight(weights, states) > 0
  {
    var W := OpenWeight(weights, states);
    N - OpenSum(weights, states, RoundedDown(N, W))
  }

  lemma OpenIsEligible(states: seq<Staff>, id: string)
    ensures Open(states, id) <==> id in EligibleIds(states)
  {
  }

  lemma {:induction false} OpenSumIs(weights: seq<Weight>, states: seq<Staff>, f: nat -> int)
    ensures Sum(Map((w: Weight) => f(w.weight), EligibleWeights(weights, states))) == OpenSum(weights, states, f)
  {
    if weights != [] {
      var rest := EligibleWeights(weights[1..], states);
      OpenSumIs(weights[1..], states, f);
      OpenIsEligible(states, weights[0].recipientActorId);
      var all := Map((w: Weight) => f(w.weight), EligibleWeights(weights, states));
      if weights[0].weight > 0 && Open(states, weights[0].recipientActorId) {
        assert EligibleWeights(weights, states) == [weights[0]] + rest;
        assert all[1..] == Map((w: Weight) => f(w.weight), rest);
      } else {
        assert EligibleWeights(weights, states) == rest;
      }
    }
  }

  lemma OpenTotals(N: int, weights: seq<Weight>, states: seq<Staff>)
    ensures var ws := EligibleWeights(weights, states); var W := OpenWeight(weights, states);
      && W == Sum(WeightValues(ws)) && (ws != [] <==> W > 0)
      && (W > 0 ==> SeatsLeft(N, weights, states) == Remainder(N, BasePlans(N, W, ws)))
  {
    var ws := EligibleWeights(weights, states);
    var whole := Whole();
    OpenSumIs(weights, states, whole);
    assert Map((w: Weight) => whole(w.weight), ws) == WeightValues(ws);
    PositiveTotal(ws);
    var W := OpenWeight(weights, states);
    if W > 0 {
      var share := RoundedDown(N, W);
      OpenSumIs(weights, states, share);
      assert Map((w: Weight) => share(w.weight), ws) == BaseCounts(BasePlans(N, W, ws));
    }
  }

  lemma TopUpNames(N: int, W: int, ranked: seq<Weight>, extra: int, i: nat)
    requires W > 0 && i < |ranked|
    ensures TopUp(BasePlans(N, W, ranked), extra)[i].actorId == ranked[i].recipientActorId
  {
  }

  lemma EligibleIsPlanned(N: int, weights: seq<Weight>, states: seq<Staff>, w: Weight) returns (i: nat)
    requires w in EligibleWeights(weights, states)
    ensures i < |QuotaPlans(N, weights, states)| && QuotaPlans(N, weights, states)[i].actorId == w.recipientActorId
  {
    var W, ranked, extra := PlanAnatomy(N, weights, states);
    SameMembers(ranked, EligibleWeights(weights, states));
    i :| 0 <= i < |ranked| && ranked[i] == w;
    TopUpNames(N, W, ranked, extra, i);
  }

  /** Exactly those are planned for whom a positive weight names and who can take a customer. */
  lemma PlannedExactly(N: int, weights: seq<Weight>, states: seq<Staff>, id: string)
    ensures (exists i :: 0 <= i < |QuotaPlans(N, weights, states)| && QuotaPlans(N, weights, states)[i].actorId == id)
       <==> Open(states, id) && exists k :: 0 <= k < |weights| && weights[k].recipientActorId == id && weights[k].weight > 0
  {
    var plans := QuotaPlans(N, weights, states);
    OpenIsEligible(states, id);
    if i :| 0 <= i < |plans| && plans[i].actorId == id {
      var w := EligibleQuotaRule(N, weights, states, i);
      assert w in weights;
      var k :| 0 <= k < |weights| && weights[k] == w;
    }
    if k :| 0 <= k < |weights| && weights[k].recipientActorId == id && weights[k].weight > 0 && Open(states, id) {
      assert weights[k] in EligibleWeights(weights, states);
      var i := EligibleIsPlanned(N, weights, states, weights[k]);
    }
  }

  /** Whoever else is on the staff, the plan depends only on who can take a customer. */
  lemma SameOpenSamePlan(N: int, weights: seq<Weight>, a: seq<Staff>, b: seq<Staff>)
    requires forall id :: Open(a, id) <==> Open(b, id)
    ensures QuotaPlans(N, weights, a) == QuotaPlans(N, weights, b)
  {
    forall id
      ensures id in EligibleIds(a) <==> id in EligibleIds(b)
    {
      OpenIsEligible(a, id);
      OpenIsEligible(b, id);
    }
    assert EligibleIds(a) == EligibleIds(b);
  }

  /** So taking an offline, full or exhausted staff member off the list leaves the plan as it is. */
  lemma ClosedAreIgnored(N: int, weights: seq<Weight>, states: seq<Staff>, i: nat)
    requires i < |states| && !HasRoom(states[i])
    ensures QuotaPlans(N, weights, Without(states, i)) == QuotaPlans(N, weights, states)
  {
    WithoutPermutes(states, i);
    forall id
      ensures Open(states, id) <==> Open(Without(states, i), id)
    {
      forall s | s in states && HasRoom(s)
        ensures s in Without(states, i)
      {
        assert s in multiset(states) && s != states[i];
      }
    }
    SameOpenSamePlan(N, weights, Without(states, i), states);
  }

  // ------------------------------------------------------------ the plan in terms of the pool

  /** Every plan is for an open actor's positive weight, and gives it its quota N*w/W rounded down or up, W being the weight
      of all the open ones. */
  lemma QuotaRule(N: int, weights: seq<Weight>, states: seq<Staff>, i: nat) returns (w: Weight)
    requires i < |QuotaPlans(N, weights, states)|
    ensures w in weights && w.weight > 0 && Open(states, w.recipientActorId)
    ensures Rounded(N, OpenWeight(weights, states), w, QuotaPlans(N, weights, states)[i])
  {
    w := EligibleQuotaRule(N, weights, states, i);
    OpenTotals(N, weights, states);
    EligibleIsOpen(weights, states, w);
  }

  lemma EligibleIsOpen(weights: seq<Weight>, states: seq<Staff>, w: Weight)
    requires w in EligibleWeights(weights, states)
    ensures w in weights && w.weight > 0 && Open(states, w.recipientActorId)
  {
    OpenIsEligible(states, w.recipientActorId);
  }

  lemma EligibleMember(weights: seq<Weight>, states: seq<Staff>, id: string)
    requires DistinctWeights(weights) && exists w :: w in EligibleWeights(weights, states) && w.recipientActorId == id
    ensures WeightOf(EligibleWeights(weights, states), id) == WeightOf(weights, id)
  {
    var ws := EligibleWeights(weights, states);
    var w :| w in ws && w.recipientActorId == id;
    var ids := EligibleIds(states);
    DistinctSubsequence((w: Weight) => w.recipientActorId in ids && w.weight > 0, weights);
    var j :| 0 <= j < |ws| && ws[j] == w;
    WeightOfMember(ws, j);
    var k :| 0 <= k < |weights| && weights[k] == w;
    WeightOfMember(weights, k);
  }

  lemma RankedPlan(N: int, W: int, ranked: seq<Weight>, extra: int, i: nat)
    requires W > 0 && i < |ranked|
    ensures var plan := TopUp(BasePlans(N, W, ranked), extra)[i]; var w := ranked[i];
      && plan.actorId == w.recipientActorId && plan.fraction == N * w.weight % W
      && plan.baseCount == N * w.weight / W + if i < extra then 1 else 0
  {
  }

  /** The whole plan: with the seats left over after rounding down, the plan at rank i has its share rounded down, and one
      more for the ranks below that number; ranks go by larger fraction, then by actorId. */
  lemma PlanClosedForm(N: int, weights: seq<Weight>, states: seq<Staff>, i: nat)
    requires DistinctWeights(weights) && i < |QuotaPlans(N, weights, states)|
    ensures OpenWeight(weights, states) > 0
    ensures var (plans, W, left) := (QuotaPlans(N, weights, states), OpenWeight(weights, states), SeatsLeft(N, weights, states));
      var share := N * WeightOf(weights, plans[i].actorId);
      && 0 <= left < |plans| && plans[i].baseCount == share / W + (if i < left then 1 else 0)
      && (forall j :: i < j < |plans| ==>
            share % W > N * WeightOf(weights, plans[j].actorId) % W
            || (share % W == N * WeightOf(weights, plans[j].actorId) % W && AtMost(plans[i].actorId, plans[j].actorId)))
  {
    OpenTotals(N, weights, states);
    var plans := QuotaPlans(N, weights, states);
    var W, ranked, extra := PlanAnatomy(N, weights, states);
    SamePlanTotals(N, W, ranked, EligibleWeights(weights, states));
    forall j | 0 <= j < |plans|
      ensures plans[j].fraction == N * WeightOf(weights, plans[j].actorId) % W
      ensures plans[j].baseCount == N * WeightOf(weights, plans[j].actorId) / W + if j < extra then 1 else 0
    {
      RankedPlan(N, W, ranked, extra, j);
      RankedMember(weights, states, ranked, j);
      PlannedWeight(weights, states, ranked, j);
      EligibleMember(weights, states, ranked[j].recipientActorId);
    }
    forall j | i < j < |plans|
      ensures Outranks(plans[i], plans[j])
    {
      EligibleRank(N, weights, states, i, j);
    }
  }

  /** Plans come largest fraction first (ties by actorId), and whoever gets more than its exact share has everybody ranked
      above rounded up too. */
  lemma ExtraSeatsByRank(N: int, weights: seq<Weight>, states: seq<Staff>, i: nat, j: nat)
    requires DistinctWeights(weights) && i < j < |QuotaPlans(N, weights, states)|
    ensures var (plans, W) := (QuotaPlans(N, weights, states), OpenWeight(weights, states));
      W * plans[j].baseCount > N * WeightOf(weights, plans[j].actorId) ==>
      W * plans[i].baseCount > N * WeightOf(weights, plans[i].actorId)
  {
    EligibleRank(N, weights, states, i, j);
    OpenTotals(N, weights, states);
    PlannedShare(N, weights, states, i);
    PlannedShare(N, weights, states, j);
  }

  lemma PlannedShare(N: int, weights: seq<Weight>, states: seq<Staff>, i: nat)
    requires DistinctWeights(weights) && i < |QuotaPlans(N, weights, states)|
    ensures var id := QuotaPlans(N, weights, states)[i].actorId;
      WeightOf(EligibleWeights(weights, states), id) == WeightOf(weights, id)
  {
    var w := EligibleQuotaRule(N, weights, states, i);
    EligibleMember(weights, states, w.recipientActorId);
  }

  /** The distance of the counts x from the exact shares N*w/W of the planned actors, scaled by W. */
  function PoolDistance(N: int, W: int, weights: seq<Weight>, plans: seq<QuotaPlan>, x: seq<int>): int
    requires |x| == |plans|
  {
    Sum(Gaps(N, W, weights, plans, x))
  }

  function Gaps(N: int, W: int, weights: seq<Weight>, plans: seq<QuotaPlan>, x: seq<int>): (gaps: seq<int>)
    requires |x| == |plans|
    ensures |gaps| == |x|
    ensures forall i :: 0 <= i < |x| ==> gaps[i] == Abs(x[i] * W - N * WeightOf(weights, plans[i].actorId))
  {
    seq(|x|, i requires 0 <= i < |x| => Abs(x[i] * W - N * WeightOf(weights, plans[i].actorId)))
  }

  lemma PoolDistanceIs(N: int, weights: seq<Weight>, states: seq<Staff>, x: seq<int>)
    requires DistinctWeights(weights) && |x| == |QuotaPlans(N, weights, states)|
    ensures var plans := QuotaPlans(N, weights, states);
      PoolDistance(N, OpenWeight(weights, states), weights, plans, x)
      == Distance(N, EligibleWeights(weights, states), plans, x)
  {
    var plans, ws := QuotaPlans(N, weights, states), EligibleWeights(weights, states);
    OpenTotals(N, weights, states);
    var W := OpenWeight(weights, states);
    forall i | 0 <= i < |x|
      ensures WeightOf(weights, plans[i].actorId) == WeightOf(ws, plans[i].actorId)
    {
      PlannedShare(N, weights, states, i);
    }
    assert Gaps(N, W, weights, plans, x) == Gaps(N, W, ws, plans, x);
  }

  /** No other way of handing out N seats to the planned actors is closer to their exact shares of the open weight. */
  lemma PlanOptimal(N: int, weights: seq<Weight>, states: seq<Staff>, x: seq<int>)
    requires DistinctWeights(weights)
    requires |x| == |QuotaPlans(N, weights, states)| && Sum(x) == N
    ensures var (plans, W) := (QuotaPlans(N, weights, states), OpenWeight(weights, states));
      PoolDistance(N, W, weights, plans, BaseCounts(plans)) <= PoolDistance(N, W, weights, plans, x)
  {
    EligibleOptimal(N, weights, states, x);
    PoolDistanceIs(N, weights, states, x);
    PoolDistanceIs(N, weights, states, BaseCounts(QuotaPlans(N, weights, states)));
  }

  // -------------------------------------------------------- order independence

  lemma SameIdSameWeight(ws: seq<Weight>, a: Weight, b: Weight)
    requires DistinctWeights(ws) && a in ws && b in ws && a.recipientActorId == b.recipientActorId
    ensures a == b
  {
    var i :| 0 <= i < |ws| && ws[i] == a;
    var j :| 0 <= j < |ws| && ws[j] == b;
    if i < j || j < i {
      assert false;
    }
  }

  lemma TiesAreEqual(N: int, W: int, weights: seq<Weight>, ws: seq<Weight>, x: QuotaPlan, y: QuotaPlan)
    requires W > 0 && DistinctWeights(weights) && forall w :: w in ws ==> w in weights
    requires x in BasePlans(N, W, ws) && y in BasePlans(N, W, ws)
    requires Outranks(x, y) && Outranks(y, x)
    ensures x == y
  {
    AtMostTotalOrder(x.actorId, y.actorId, y.actorId);
    var i :| 0 <= i < |ws| && Base(N, W, ws[i]) == x;
    var j :| 0 <= j < |ws| && Base(N, W, ws[j]) == y;
    SameIdSameWeight(weights, ws[i], ws[j]);
  }

  /** With distinct ids the plan depends neither on the order of the weights nor on that of the staff. */
  lemma OrderIndependent(N: int, weights: seq<Weight>, states: seq<Staff>, weights': seq<Weight>, states': seq<Staff>)
    requires DistinctWeights(weights)
    requires multiset(weights) == multiset(weights') && multiset(states) == multiset(states')
    ensures QuotaPlans(N, weights, states) == QuotaPlans(N, weights', states')
  {
    SameMembers(states, states');
    assert EligibleIds(states) == EligibleIds(states');
    var ids := EligibleIds(states);
    FilterPermutes((w: Weight) => w.recipientActorId in ids && w.weight > 0, weights, weights');
    var ws, ws' := EligibleWeights(weights, states), EligibleWeights(weights', states');
    SameMembers(ws, ws');
    if ws != [] {
      PositiveTotal(ws);
      var W := Sum(WeightValues(ws));
      SamePlanTotals(N, W, ws, ws');
      MapPermutes((w: Weight) => Base(N, W, w), ws, ws');
      OutranksTotalPreorder();
      forall x, y | x in BasePlans(N, W, ws) && y in BasePlans(N, W, ws) && Outranks(x, y) && Outranks(y, x)
        ensures x == y
      {
        TiesAreEqual(N, W, weights, ws, x, y);
      }
      SortCanonical(BasePlans(N, W, ws), BasePlans(N, W, ws'), Outranks);
    }
  }
}
