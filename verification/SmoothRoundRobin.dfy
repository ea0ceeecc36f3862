/** Smooth weighted round-robin: the picks, their shares, and the in-place method. */
module SmoothRoundRobin {
  import opened Ordering
  import opened Routing

  // ---------------------------------------------------------------- one pick

  function Bump(acc: seq<int>, flags: seq<bool>, w: seq<int>): (r: seq<int>)
    requires |acc| == |flags| == |w|
    ensures |r| == |acc|
    ensures forall i :: 0 <= i < |r| ==> r[i] == acc[i] + if flags[i] then w[i] else 0
  {
    seq(|acc|, i requires 0 <= i < |acc| => acc[i] + if flags[i] then w[i] else 0)
  }

  /** The first eligible index below `n` holding the largest eligible value. */
  function FirstBest(flags: seq<bool>, vals: seq<int>, n: nat): (r: Option<nat>)
    requires n <= |flags| == |vals|
    ensures r.None? <==> forall i :: 0 <= i < n ==> !flags[i]
    ensures r.Some? ==> r.value < n && flags[r.value]
    ensures r.Some? ==> forall i :: 0 <= i < n && flags[i] ==>
      vals[i] <= vals[r.value] && (i < r.value ==> vals[i] < vals[r.value])
  {
    if n == 0 then None
    else
      var b := FirstBest(flags, vals, n - 1);
      if flags[n - 1] && (b.None? || vals[n - 1] > vals[b.value]) then Some(n - 1) else b
  }

  /** One pick: who is chosen (if anyone is eligible) and the new accumulators. */
  function Pick(flags: seq<bool>, w: seq<int>, W: int, acc: seq<int>): (r: (Option<nat>, seq<int>))
    requires |acc| == |flags| == |w|
    ensures |r.1| == |acc|
    ensures r.0.Some? ==> r.0.value < |acc| && flags[r.0.value]
    ensures forall i :: 0 <= i < |acc| ==>
      r.1[i] == acc[i] + (if flags[i] then w[i] else 0) - (if r.0 == Some(i) then W else 0)
  {
    var bumped := Bump(acc, flags, w);
    match FirstBest(flags, bumped, |flags|)
    case None => (None, acc)
    case Some(b) => (Some(b), bumped[b := bumped[b] - W])
  }

  function EligibleWeight(flags: seq<bool>, w: seq<int>): int
    requires |flags| == |w|
  {
    Sum(Bump(Zeros(|w|), flags, w))
  }

  lemma BumpTotal(flags: seq<bool>, w: seq<int>, acc: seq<int>)
    requires |acc| == |flags| == |w|
    ensures Sum(Bump(acc, flags, w)) == Sum(acc) + EligibleWeight(flags, w)
  {
    SumAdd(acc, Bump(Zeros(|w|), flags, w), Bump(acc, flags, w));
  }

  lemma ChargeTotal(flags: seq<bool>, w: seq<int>, W: int, acc: seq<int>)
    requires |acc| == |flags| == |w|
    ensures Sum(Pick(flags, w, W, acc).1) ==
            Sum(Bump(acc, flags, w)) - (if Pick(flags, w, W, acc).0.Some? then W else 0)
  {
    var bumped := Bump(acc, flags, w);
    var b := FirstBest(flags, bumped, |flags|);
    if b.None? {
      assert bumped == acc;
    } else {
      SumUpdate(bumped, b.value, bumped[b.value] - W);
    }
  }

  /** A pick takes W away from, and gives the eligible weight to, the accumulator total. */
  lemma PickTotal(flags: seq<bool>, w: seq<int>, W: int, acc: seq<int>)
    requires |acc| == |flags| == |w|
    ensures Sum(Pick(flags, w, W, acc).1) ==
            Sum(acc) + EligibleWeight(flags, w) - (if Pick(flags, w, W, acc).0.Some? then W else 0)
  {
    BumpTotal(flags, w, acc);
    ChargeTotal(flags, w, W, acc);
  }

  // ---------------------------------------------------------------- many picks

  /** Round t is described by the flags saying who is eligible in it. */
  ghost predicate Rounds(rounds: seq<seq<bool>>, w: seq<int>) {
    forall t :: 0 <= t < |rounds| ==> |rounds[t]| == |w|
  }

  /** The accumulators after all the rounds, starting from zero. */
  function Acc(rounds: seq<seq<bool>>, w: seq<int>, W: int): (acc: seq<int>)
    requires Rounds(rounds, w)
    ensures |acc| == |w|
  {
    if rounds == [] then Zeros(|w|)
    else
      var t := |rounds| - 1;
      Pick(rounds[t], w, W, Acc(rounds[..t], w, W)).1
  }

  /** Who is chosen in round t. */
  function Chosen(rounds: seq<seq<bool>>, w: seq<int>, W: int, t: nat): (r: Option<nat>)
    requires Rounds(rounds, w) && t < |rounds|
  {
    Pick(rounds[t], w, W, Acc(rounds[..t], w, W)).0
  }

  /** How often staff member i was chosen, and in how many rounds it was eligible. */
  function Wins(rounds: seq<seq<bool>>, w: seq<int>, W: int, i: nat): nat
    requires Rounds(rounds, w)
  {
    if rounds == [] then 0
    else
      var t := |rounds| - 1;
      Wins(rounds[..t], w, W, i) + if Chosen(rounds, w, W, t) == Some(i) then 1 else 0
  }

  function Turns(rounds: seq<seq<bool>>, w: seq<int>, i: nat): nat
    requires Rounds(rounds, w) && i < |w|
  {
    if rounds == [] then 0
    else Turns(rounds[..|rounds| - 1], w, i) + if rounds[|rounds| - 1][i] then 1 else 0
  }

  /** What staff member i earned over the rounds, and what its picks were charged. */
  function Due(rounds: seq<seq<bool>>, w: seq<int>, i: nat): int
    requires Rounds(rounds, w) && i < |w|
  {
    if rounds == [] then 0
    else Due(rounds[..|rounds| - 1], w, i) + if rounds[|rounds| - 1][i] then w[i] else 0
  }

  function Charged(rounds: seq<seq<bool>>, w: seq<int>, W: int, i: nat): int
    requires Rounds(rounds, w)
  {
    if rounds == [] then 0
    else
      var t := |rounds| - 1;
      Charged(rounds[..t], w, W, i) + if Chosen(rounds, w, W, t) == Some(i) then W else 0
  }

  lemma {:induction false} AccumulatorLedger(rounds: seq<seq<bool>>, w: seq<int>, W: int, i: nat)
    requires Rounds(rounds, w) && i < |w|
    ensures Acc(rounds, w, W)[i] == Due(rounds, w, i) - Charged(rounds, w, W, i)
  {
    if rounds != [] {
      AccumulatorLedger(rounds[..|rounds| - 1], w, W, i);
    }
  }

  lemma {:induction false} DuePerTurn(rounds: seq<seq<bool>>, w: seq<int>, i: nat)
    requires Rounds(rounds, w) && i < |w|
    ensures Due(rounds, w, i) == Turns(rounds, w, i) * w[i]
  {
    if rounds != [] {
      DuePerTurn(rounds[..|rounds| - 1], w, i);
    }
  }

  lemma {:induction false} ChargedPerWin(rounds: seq<seq<bool>>, w: seq<int>, W: int, i: nat)
    requires Rounds(rounds, w)
    ensures Charged(rounds, w, W, i) == W * Wins(rounds, w, W, i)
  {
    if rounds != [] {
      var t := |rounds| - 1;
      ChargedPerWin(rounds[..t], w, W, i);
      ProductNext(W, Wins(rounds[..t], w, W, i));
    }
  }

  /** Under any eligibility history an accumulator is its owner's entitlement minus what it was charged. */
  lemma AccumulatorLaw(rounds: seq<seq<bool>>, w: seq<int>, W: int, i: nat)
    requires Rounds(rounds, w) && i < |w|
    ensures Acc(rounds, w, W)[i] == Turns(rounds, w, i) * w[i] - W * Wins(rounds, w, W, i)
  {
    AccumulatorLedger(rounds, w, W, i);
    DuePerTurn(rounds, w, i);
    ChargedPerWin(rounds, w, W, i);
  }

  /** The total never rises above zero, and only an eligible staff member is ever chosen. */
  lemma {:induction false} TotalNeverPositive(rounds: seq<seq<bool>>, w: seq<int>, W: int)
    requires Rounds(rounds, w)
    requires (forall i :: 0 <= i < |w| ==> w[i] >= 0) && Sum(w) <= W
    ensures Sum(Acc(rounds, w, W)) <= 0
    ensures forall t :: 0 <= t < |rounds| && Chosen(rounds, w, W, t).Some? ==>
              Chosen(rounds, w, W, t).value < |w| && rounds[t][Chosen(rounds, w, W, t).value]
  {
    if rounds == [] {
      SumZero(Zeros(|w|));
    } else {
      var t := |rounds| - 1;
      TotalNeverPositive(rounds[..t], w, W);
      PickTotal(rounds[t], w, W, Acc(rounds[..t], w, W));
      SumMonotone(Bump(Zeros(|w|), rounds[t], w), w);
      if Chosen(rounds, w, W, t).None? {
        SumZero(Bump(Zeros(|w|), rounds[t], w));
      }
    }
  }

  // ------------------------------------------- when weight 0 is served

  /** Staff member j, with this round's weight counted, has been charged for more than i has, by the tie rule of the scan. */
  predicate Covered(past: seq<seq<bool>>, w: seq<int>, W: int, j: nat, i: nat)
    requires Rounds(past, w) && j < |w|
  {
    Turns(past, w, j) * w[j] + w[j] + (if j < i then 1 else 0) <= W * Wins(past, w, W, j) - W * Wins(past, w, W, i)
  }

  lemma CoveredMeans(past: seq<seq<bool>>, w: seq<int>, W: int, j: nat, i: nat)
    requires Rounds(past, w) && j < |w| && i < |w| && w[i] == 0
    ensures Covered(past, w, W, j, i) <==>
      Acc(past, w, W)[j] + w[j] <= Acc(past, w, W)[i] && (j < i ==> Acc(past, w, W)[j] + w[j] < Acc(past, w, W)[i])
  {
    AccumulatorLaw(past, w, W, j);
    AccumulatorLaw(past, w, W, i);
    SameProduct(0, 0, Turns(past, w, i));
  }

  /** A staff member of weight 0 gets a customer exactly when it is eligible and every other eligible one is covered; with
      every positive weight eligible throughout that never happens, but once the gates leave out those who are owed
      customers it can. */
  lemma ZeroWeightServed(rounds: seq<seq<bool>>, w: seq<int>, W: int, t: nat, i: nat)
    requires Rounds(rounds, w) && t < |rounds| && i < |w| && w[i] == 0
    ensures Chosen(rounds, w, W, t) == Some(i) <==>
      rounds[t][i] && forall j :: 0 <= j < |w| && j != i && rounds[t][j] ==> Covered(rounds[..t], w, W, j, i)
  {
    var acc, flags := Acc(rounds[..t], w, W), rounds[t];
    var vals := Bump(acc, flags, w);
    forall j | 0 <= j < |w| && j != i && flags[j]
      ensures Covered(rounds[..t], w, W, j, i) <==> vals[j] <= acc[i] && (j < i ==> vals[j] < acc[i])
    {
      CoveredMeans(rounds[..t], w, W, j, i);
    }
    if flags[i] && forall j :: 0 <= j < |w| && j != i && flags[j] ==> Covered(rounds[..t], w, W, j, i) {
      FirstBestUnique(flags, vals, i);
    }
  }

  // ------------------------------------------- everybody with a weight stays in

  /** In every round all positive weights are eligible. */
  ghost predicate FullRounds(rounds: seq<seq<bool>>, w: seq<int>) {
    && Rounds(rounds, w)
    && forall t, i :: 0 <= t < |rounds| && 0 <= i < |w| && w[i] > 0 ==> rounds[t][i]
  }

  ghost predicate Weights(w: seq<int>, W: int) {
    W > 0 && Sum(w) == W && forall i :: 0 <= i < |w| ==> w[i] >= 0
  }

  /** What each round keeps: the total stays 0, nobody falls to -W, zero weights stay at 0. */
  ghost predicate Balanced(acc: seq<int>, w: seq<int>, W: int)
  {
    && |acc| == |w| && Sum(acc) == 0
    && (forall i :: 0 <= i < |w| ==> acc[i] > -W)
    && (forall i :: 0 <= i < |w| && w[i] == 0 ==> acc[i] == 0)
  }

  lemma FullRoundBumped(flags: seq<bool>, w: seq<int>, W: int, acc: seq<int>)
    requires |flags| == |w| && Weights(w, W) && Balanced(acc, w, W)
    requires forall i :: 0 <= i < |w| && w[i] > 0 ==> flags[i]
    ensures Sum(Bump(acc, flags, w)) == W
    ensures exists i :: 0 <= i < |w| && flags[i] && Bump(acc, flags, w)[i] > 0
  {
    var bumped := Bump(acc, flags, w);
    SumAdd(acc, w, bumped);
    if forall i :: 0 <= i < |w| && flags[i] ==> bumped[i] <= 0 {
      SumMonotone(bumped, Zeros(|w|));
      SumZero(Zeros(|w|));
      assert false;
    }
  }

  lemma FullRoundChoice(flags: seq<bool>, w: seq<int>, W: int, acc: seq<int>)
    requires |flags| == |w| && Weights(w, W) && Balanced(acc, w, W)
    requires forall i :: 0 <= i < |w| && w[i] > 0 ==> flags[i]
    ensures var b := FirstBest(flags, Bump(acc, flags, w), |w|);
      b.Some? && Bump(acc, flags, w)[b.value] > 0 && w[b.value] > 0
  {
    FullRoundBumped(flags, w, W, acc);
    var i :| 0 <= i < |w| && flags[i] && Bump(acc, flags, w)[i] > 0;
    var b := FirstBest(flags, Bump(acc, flags, w), |w|);
    assert Bump(acc, flags, w)[i] <= Bump(acc, flags, w)[b.value];
  }

  lemma FullRoundBalanced(flags: seq<bool>, w: seq<int>, W: int, acc: seq<int>)
    requires |flags| == |w| && Weights(w, W) && Balanced(acc, w, W)
    requires forall i :: 0 <= i < |w| && w[i] > 0 ==> flags[i]
    ensures Balanced(Pick(flags, w, W, acc).1, w, W)
    ensures Pick(flags, w, W, acc).0.Some? && w[Pick(flags, w, W, acc).0.value] > 0
  {
    FullRoundBumped(flags, w, W, acc);
    FullRoundChoice(flags, w, W, acc);
    ChargeTotal(flags, w, W, acc);
  }

  lemma {:induction false} FullRunBalanced(rounds: seq<seq<bool>>, w: seq<int>, W: int)
    requires FullRounds(rounds, w) && Weights(w, W)
    ensures Balanced(Acc(rounds, w, W), w, W)
  {
    if rounds == [] {
      SumZero(Zeros(|w|));
    } else {
      var t := |rounds| - 1;
      FullRunBalanced(rounds[..t], w, W);
      FullRoundBalanced(rounds[t], w, W, Acc(rounds[..t], w, W));
    }
  }

  /** Every round serves somebody, and only somebody with a positive weight. */
  lemma FullRunServes(rounds: seq<seq<bool>>, w: seq<int>, W: int, t: nat)
    requires FullRounds(rounds, w) && Weights(w, W) && t < |rounds|
    ensures Chosen(rounds, w, W, t).Some? && Chosen(rounds, w, W, t).value < |w|
    ensures w[Chosen(rounds, w, W, t).value] > 0
  {
    FullRunBalanced(rounds[..t], w, W);
    FullRoundBalanced(rounds[t], w, W, Acc(rounds[..t], w, W));
  }

  lemma {:induction false} FullTurns(rounds: seq<seq<bool>>, w: seq<int>, i: nat)
    requires FullRounds(rounds, w) && i < |w| && w[i] > 0
    ensures Turns(rounds, w, i) == |rounds|
  {
    if rounds != [] {
      FullTurns(rounds[..|rounds| - 1], w, i);
    }
  }

  /** After k picks with everybody in, accumulator i is k*w_i - W*c_i. */
  lemma FullAccumulator(rounds: seq<seq<bool>>, w: seq<int>, W: int, i: nat)
    requires FullRounds(rounds, w) && Weights(w, W) && i < |w|
    ensures Acc(rounds, w, W)[i] == |rounds| * w[i] - W * Wins(rounds, w, W, i)
  {
    AccumulatorLaw(rounds, w, W, i);
    var turns := Turns(rounds, w, i);
    if w[i] > 0 {
      FullTurns(rounds, w, i);
    }
    SameProduct(turns, |rounds|, w[i]);
  }

  /** Nobody is ever ahead of its share rounded up; nobody with weight 0 is picked. */
  lemma ShareBound(rounds: seq<seq<bool>>, w: seq<int>, W: int, i: nat)
    requires FullRounds(rounds, w) && Weights(w, W) && i < |w|
    ensures |rounds| * w[i] >= 0
    ensures Wins(rounds, w, W, i) <= CeilDiv(|rounds| * w[i], W)
    ensures w[i] == 0 ==> Wins(rounds, w, W, i) == 0
  {
    FullRunBalanced(rounds, w, W);
    FullAccumulator(rounds, w, W, i);
    ShareArithmetic(|rounds|, w[i], W, Wins(rounds, w, W, i));
  }

  lemma ShareArithmetic(k: nat, share: nat, W: int, wins: nat)
    requires W > 0 && k * share - W * wins > -W
    ensures k * share >= 0
    ensures wins <= CeilDiv(k * share, W)
    ensures share == 0 ==> wins == 0
  {
    CeilDivBound(wins, k * share, W);
    if share == 0 && wins > 0 {
      ProductOrder(W, wins, 1);
    }
  }

  /** Nobody falls behind its share by more than (n-1)(W-1)/W customers. */
  lemma LagBound(rounds: seq<seq<bool>>, w: seq<int>, W: int, i: nat)
    requires FullRounds(rounds, w) && Weights(w, W) && i < |w|
    ensures |rounds| * w[i] - W * Wins(rounds, w, W, i) <= (|w| - 1) * (W - 1)
  {
    FullRunBalanced(rounds, w, W);
    FullAccumulator(rounds, w, W, i);
    OneAgainstTheRest(Acc(rounds, w, W), W, i);
  }

  lemma OneAgainstTheRest(acc: seq<int>, W: int, i: nat)
    requires i < |acc| && Sum(acc) == 0
    requires forall j :: 0 <= j < |acc| ==> acc[j] > -W
    ensures acc[i] <= (|acc| - 1) * (W - 1)
  {
    var others := Without(acc, i);
    SumWithout(acc, i);
    SumAtLeast(others, -(W - 1));
    NegatedProduct(|others|, W - 1);
  }

  lemma CycleArithmetic(m: nat, W: int, share: int, wins: nat, acc: int)
    requires W > 0 && acc == m * W * share - W * wins
    ensures acc == W * (m * share - wins)
    ensures acc > -W ==> acc >= 0
    ensures acc == 0 ==> wins == m * share
  {
    assert m * W * share == W * (m * share);
    assert W * (m * share) - W * wins == W * (m * share - wins);
    if m * share - wins < 0 {
      ProductOrder(W, wins - m * share, 1);
      assert W * (wins - m * share) == -(W * (m * share - wins));
    }
    if m * share - wins > 0 {
      ProductOrder(W, m * share - wins, 1);
    }
  }

  lemma CycleEntry(rounds: seq<seq<bool>>, w: seq<int>, W: int, m: nat, i: nat)
    requires FullRounds(rounds, w) && Weights(w, W) && |rounds| == m * W && i < |w|
    ensures Acc(rounds, w, W)[i] >= 0
    ensures Acc(rounds, w, W)[i] == 0 ==> Wins(rounds, w, W, i) == m * w[i]
  {
    FullRunBalanced(rounds, w, W);
    FullAccumulator(rounds, w, W, i);
    CycleArithmetic(m, W, w[i], Wins(rounds, w, W, i), Acc(rounds, w, W)[i]);
  }

  /** Whole cycles are exact: after m*W picks everybody has exactly m*w_i and all accumulators are 0. */
  lemma ExactShares(rounds: seq<seq<bool>>, w: seq<int>, W: int, m: nat)
    requires FullRounds(rounds, w) && Weights(w, W) && |rounds| == m * W
    ensures forall i :: 0 <= i < |w| ==> Wins(rounds, w, W, i) == m * w[i]
    ensures Acc(rounds, w, W) == Zeros(|w|)
  {
    var acc := Acc(rounds, w, W);
    forall i | 0 <= i < |w|
      ensures acc[i] >= 0 && (acc[i] == 0 ==> Wins(rounds, w, W, i) == m * w[i])
    {
      CycleEntry(rounds, w, W, m, i);
    }
    FullRunBalanced(rounds, w, W);
    SumZero(Zeros(|w|));
    SumMonotone(Zeros(|w|), acc);
  }

  lemma CycleReset(rounds: seq<seq<bool>>, w: seq<int>, W: int)
    requires FullRounds(rounds, w) && Weights(w, W) && |rounds| == W
    ensures Acc(rounds, w, W) == Zeros(|w|)
  {
    ExactShares(rounds, w, W, 1);
  }

  /** n rounds in which eligibility does not change. */
  function Steady(flags: seq<bool>, n: nat): (rounds: seq<seq<bool>>)
    ensures |rounds| == n
    ensures forall t :: 0 <= t < n ==> rounds[t] == flags
  {
    seq(n, t => flags)
  }

  /** The accumulators after n such rounds, by iterating the pick. */
  function SteadyAcc(flags: seq<bool>, w: seq<int>, W: int, n: nat): (acc: seq<int>)
    requires |flags| == |w|
    ensures |acc| == |w|
  {
    if n == 0 then Zeros(|w|) else Pick(flags, w, W, SteadyAcc(flags, w, W, n - 1)).1
  }

  lemma {:induction false} SteadyAccIsAcc(flags: seq<bool>, w: seq<int>, W: int, n: nat)
    requires |flags| == |w|
    ensures Acc(Steady(flags, n), w, W) == SteadyAcc(flags, w, W, n)
  {
    if n > 0 {
      assert Steady(flags, n)[..n - 1] == Steady(flags, n - 1);
      SteadyAccIsAcc(flags, w, W, n - 1);
    }
  }

  /** Who is picked in round t of a steady run. */
  function SteadyChoice(flags: seq<bool>, w: seq<int>, W: int, t: nat): Option<nat>
    requires |flags| == |w|
  {
    Pick(flags, w, W, SteadyAcc(flags, w, W, t)).0
  }

  lemma SteadyReset(flags: seq<bool>, w: seq<int>, W: int)
    requires |flags| == |w| && Weights(w, W)
    requires forall i :: 0 <= i < |w| && w[i] > 0 ==> flags[i]
    ensures SteadyAcc(flags, w, W, W) == Zeros(|w|)
  {
    CycleReset(Steady(flags, W), w, W);
    SteadyAccIsAcc(flags, w, W, W);
  }

  ghost predicate SameNext<T>(f: nat -> T, m: nat, n: nat) {
    f(m) == f(n) ==> f(m + 1) == f(n + 1)
  }

  /** A sequence whose every value settles the next comes round once it comes back to its start. */
  lemma {:induction false} ComesRound<T>(f: nat -> T, cycle: nat, t: nat)
    requires f(cycle) == f(0) && forall m, n :: SameNext(f, m, n)
    ensures f(cycle + t) == f(t)
  {
    if t > 0 {
      ComesRound(f, cycle, t - 1);
      assert SameNext(f, cycle + t - 1, t - 1);
    }
  }

  lemma SteadyNext(f: nat -> seq<int>, flags: seq<bool>, w: seq<int>, W: int, m: nat, n: nat)
    requires |flags| == |w| && forall k: nat :: f(k) == SteadyAcc(flags, w, W, k)
    ensures SameNext(f, m, n)
  {
    assert f(m + 1) == Pick(flags, w, W, SteadyAcc(flags, w, W, m)).1;
    assert f(n + 1) == Pick(flags, w, W, SteadyAcc(flags, w, W, n)).1;
  }

  lemma SteadyRound(f: nat -> seq<int>, flags: seq<bool>, w: seq<int>, W: int, cycle: nat, t: nat)
    requires |flags| == |w| && forall k: nat :: f(k) == SteadyAcc(flags, w, W, k)
    requires f(cycle) == f(0)
    ensures f(cycle + t) == f(t)
  {
    forall m, n
      ensures SameNext(f, m, n)
    {
      SteadyNext(f, flags, w, W, m, n);
    }
    ComesRound(f, cycle, t);
  }

  lemma SteadyPeriod(flags: seq<bool>, w: seq<int>, W: int, cycle: nat, t: nat)
    requires |flags| == |w|
    requires SteadyAcc(flags, w, W, cycle) == Zeros(|w|)
    ensures SteadyAcc(flags, w, W, cycle + t) == SteadyAcc(flags, w, W, t)
  {
    SteadyRound((n: nat) => SteadyAcc(flags, w, W, n), flags, w, W, cycle, t);
  }

  /** While eligibility does not change, the picks repeat with period W. */
  lemma Periodic(flags: seq<bool>, w: seq<int>, W: int, t: nat)
    requires |flags| == |w| && Weights(w, W)
    requires forall i :: 0 <= i < |w| && w[i] > 0 ==> flags[i]
    ensures SteadyChoice(flags, w, W, W + t) == SteadyChoice(flags, w, W, t)
  {
    SteadyReset(flags, w, W);
    SteadyPeriod(flags, w, W, W, t);
  }

  // ------------------------------------------------------ the method in place

  ghost predicate ListsEligible(idx: seq<nat>, flags: seq<bool>) {
    && (forall k :: 0 <= k < |idx| ==> idx[k] < |flags| && flags[idx[k]])
    && (forall k, l :: 0 <= k < l < |idx| ==> idx[k] < idx[l])
    && (forall j :: 0 <= j < |flags| && flags[j] ==> j in idx)
  }

  lemma FirstBestUnique(flags: seq<bool>, vals: seq<int>, b: nat)
    requires |flags| == |vals| && b < |flags| && flags[b]
    requires forall i :: 0 <= i < |flags| && flags[i] ==> vals[i] <= vals[b] && (i < b ==> vals[i] < vals[b])
    ensures FirstBest(flags, vals, |flags|) == Some(b)
  {
    var r := FirstBest(flags, vals, |flags|);
    assert r.Some?;
    if r.value < b || b < r.value {
      assert false;
    }
  }

  /** The accumulators live beside the (shared) staff records, index by index. */
  class WrrState {
    const staffStates: array<Staff>
    const currentWeights: array<int>
    const totalWeight: nat

    ghost predicate Valid() {
      && staffStates.Length == currentWeights.Length
      && (staffStates as object) != currentWeights
    }

    constructor (states: array<Staff>, weights: seq<Weight>)
      ensures Valid() && staffStates == states && totalWeight == TotalWeight(weights)
      ensures fresh(currentWeights) && currentWeights[..] == Zeros(states.Length)
    {
      staffStates := states;
      currentWeights := new int[states.Length](i => 0);
      totalWeight := TotalWeight(weights);
      new;
      assert currentWeights[..] == Zeros(states.Length);
    }

    ghost function Choice(weights: seq<Weight>): (Option<nat>, seq<int>)
      requires Valid()
      reads staffStates, currentWeights
    {
      Pick(Flags(staffStates[..]), StaffWeights(staffStates[..], weights), totalWeight, currentWeights[..])
    }

    ghost function EligibleFlags(): (flags: seq<bool>)
      reads staffStates
      ensures |flags| == staffStates.Length
    {
      Flags(staffStates[..])
    }

    method EligibleIndices() returns (idx: seq<nat>)
      ensures ListsEligible(idx, EligibleFlags())
    {
      idx := [];
      for i := 0 to staffStates.Length
        invariant forall k :: 0 <= k < |idx| ==> idx[k] < i && Eligible(staffStates[idx[k]])
        invariant forall k, l :: 0 <= k < l < |idx| ==> idx[k] < idx[l]
        invariant forall j :: 0 <= j < i && Eligible(staffStates[j]) ==> j in idx
      {
        if Eligible(staffStates[i]) {
          idx := idx + [i];
        }
      }
    }

    method AddWeights(weights: seq<Weight>, idx: seq<nat>)
      requires Valid() && ListsEligible(idx, EligibleFlags())
      modifies currentWeights
      ensures currentWeights[..] ==
              Bump(old(currentWeights[..]), EligibleFlags(), StaffWeights(staffStates[..], weights))
    {
      for k := 0 to |idx|
        invariant staffStates[..] == old(staffStates[..])
        invariant forall l :: k <= l < |idx| ==> currentWeights[idx[l]] == old(currentWeights[idx[l]])
        invariant forall j :: 0 <= j < currentWeights.Length ==>
          currentWeights[j] == old(currentWeights[j]) + (if j in idx[..k] then WeightOf(weights, staffStates[j].actorId) else 0)
      {
        var i := idx[k];
        currentWeights[i] := currentWeights[i] + WeightOf(weights, staffStates[i].actorId);
      }
      assert idx[..|idx|] == idx;
    }

    method Largest(idx: seq<nat>) returns (best: nat)
      requires Valid() && idx != [] && ListsEligible(idx, EligibleFlags())
      ensures FirstBest(EligibleFlags(), currentWeights[..], staffStates.Length) == Some(best)
    {
      best := idx[0];
      var bestWeight := currentWeights[best];
      for k := 1 to |idx|
        invariant best in idx[..k] && bestWeight == currentWeights[best]
        invariant forall l :: 0 <= l < k ==> currentWeights[idx[l]] <= bestWeight
        invariant forall l :: 0 <= l < k && idx[l] < best ==> currentWeights[idx[l]] < bestWeight
      {
        var i := idx[k];
        if currentWeights[i] > bestWeight {
          bestWeight := currentWeights[i];
          best := i;
        }
      }
      assert best in idx;
      FirstBestUnique(EligibleFlags(), currentWeights[..], best);
    }

    /** Chooses one staff index, or None when nobody is eligible, updating the accumulators. */
    method Next(weights: seq<Weight>) returns (picked: Option<nat>)
      requires Valid()
      modifies currentWeights
      ensures (picked, currentWeights[..]) == old(Choice(weights))
    {
      var idx := EligibleIndices();
      if |idx| == 0 {
        return None;
      }
      AddWeights(weights, idx);
      var best := Largest(idx);
      currentWeights[best] := currentWeights[best] - totalWeight;
      picked := Some(best);
    }
  }
}
