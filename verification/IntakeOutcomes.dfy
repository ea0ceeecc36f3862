/** What runs come to, whatever faults they meet. */
module IntakeOutcomes {
  import opened Ordering
  import opened CanonicalJson
  import opened MockGateways
  import opened IntakeSteps
  import opened IntakeRuns
  import opened IntakeCrashes
  import opened IntakeFaults

  /** The run is told that its write failed, whether it was refused or taken unheard. */
  predicate ToldFailed(fate: Fate) {
    fate.Refused? || fate.Unheard?
  }

  /** The whole run. */
  function FinishWith(w: World, r: Run, env: Env, fates: nat -> Fate): (World, Run)
    requires InRange(r)
  {
    Suffered(w, r, env, fates, RUN_LENGTH)
  }

  /** Without faults these are the stretches of an undisturbed run. */
  lemma {:induction false} AllTaken(w: World, r: Run, env: Env, fates: nat -> Fate, n: nat)
    requires InRange(r) && forall k :: 0 <= k < n ==> fates(k) == Taken
    ensures Suffered(w, r, env, fates, n) == Steps(w, r, env, n)
  {
    if n > 0 {
      var before := n - 1;
      AllTaken(w, r, env, fates, before);
      SufferedNext(w, r, env, fates, before, n);
      StepsNext(w, r, env, before, n);
    }
  }

  lemma OverNext(w: World, r: Run, env: Env, fates: nat -> Fate, k: nat, n: nat)
    requires InRange(r) && n == k + 1 && Over(Suffered(w, r, env, fates, k).1)
    ensures Suffered(w, r, env, fates, n) == Suffered(w, r, env, fates, k)
  {
    SufferedNext(w, r, env, fates, k, n);
  }

  lemma {:induction false} OverStays(w: World, r: Run, env: Env, fates: nat -> Fate, n: nat, m: nat)
    requires InRange(r) && n <= m && Over(Suffered(w, r, env, fates, n).1)
    ensures Suffered(w, r, env, fates, m) == Suffered(w, r, env, fates, n)
    decreases m - n
  {
    if n < m {
      var next := n + 1;
      OverNext(w, r, env, fates, n, next);
      OverStays(w, r, env, fates, next, m);
    }
  }

  // ---------------------------------------------------------------- what holds along the way

  /** A run just let in. */
  ghost predicate AtStart(w: World, r: Run) {
    Shape(r) && r.phase.Head? && r.loaded == r.applied && w.row.Some?
  }

  /** A run that found a possible match itself goes no further. */
  ghost predicate WaitsForReview(r: Run) {
    |r.loaded| < 2 && ShowsPossible(r.results) ==>
      |r.applied| == 2 && !r.phase.Head? && !r.phase.Marked?
  }

  /** The row is there, bound to this draft, and once the run is done it tells how it ended. */
  ghost predicate Told(digest: Digest, w: World, r: Run) {
    && Shape(r) && WaitsForReview(r) && w.row.Some? && w.row.value.draftDigest == digest
    && (r.phase.Done? ==>
          && w.row.value.state == Final(r.phase.outcome) && w.row.value.appliedSteps == r.applied
          && w.row.value.stepResults == r.results && w.row.value.lastError == r.failure)
  }

  lemma ToldAdvance(digest: Digest, w: World, r: Run, env: Env, saved: bool)
    requires Told(digest, w, r)
    ensures InRange(r) && var (v, q) := Advance(w, r, env, saved); Told(digest, v, q)
  {
    AdvanceShape(w, r, env, saved);
    StaysWaiting(w, r, env, saved);
  }

  lemma ToldUnheard(digest: Digest, w: World, r: Run, env: Env)
    requires Told(digest, w, r)
    ensures InRange(r) && var (v, q) := Suffer(w, r, env, Unheard); Told(digest, v, q)
  {
    ToldAdvance(digest, w, r, env, true);
    ToldAdvance(digest, w, r, env, false);
  }

  lemma ToldLost(digest: Digest, w: World, r: Run, env: Env, code: ErrorCode, sent: bool)
    requires Told(digest, w, r) && r.phase.Marked?
    ensures var (v, q) := LoseReply(w, r, r.phase.at, env, code, sent); Told(digest, v, q)
  {
    if Calls(STEP_ORDER[r.phase.at], r.target) {
      LoseShape(w, r, r.phase.at, env, code, sent);
    } else {
      ToldAdvance(digest, w, r, env, true);
    }
  }

  lemma ToldOn(digest: Digest, w: World, r: Run, env: Env, fate: Fate)
    requires Told(digest, w, r)
    ensures InRange(r) && var (v, q) := Suffer(w, r, env, fate); Told(digest, v, q)
  {
    match fate {
      case Taken => ToldAdvance(digest, w, r, env, true);
      case Refused => ToldAdvance(digest, w, r, env, false);
      case Unheard => ToldUnheard(digest, w, r, env);
      case Lost(code, sent) =>
        ToldAdvance(digest, w, r, env, true);
        if r.phase.Marked? {
          ToldLost(digest, w, r, env, code, sent);
        }
    }
  }

  lemma WaitsAfterStep(w: World, r: Run, env: Env, at: nat)
    requires Shape(r) && WaitsForReview(r) && r.phase == Marked(at)
    ensures WaitsForReview(Execute(w, r, at, env).1)
  {
  }

  lemma WaitsAfterCommit(w: World, r: Run, at: nat, saved: bool)
    requires Shape(r) && WaitsForReview(r) && r.phase == Executed(at)
    ensures WaitsForReview(Commit(w, r, at, saved).1)
  {
  }

  lemma StaysWaiting(w: World, r: Run, env: Env, saved: bool)
    requires Shape(r) && WaitsForReview(r)
    ensures InRange(r) && WaitsForReview(Advance(w, r, env, saved).1)
  {
    match r.phase {
      case Head(_) => HeadAdvance(w, r, env, saved);
      case Marked(at) => WaitsAfterStep(w, r, env, at);
      case Executed(at) => WaitsAfterCommit(w, r, at, saved);
      case _ =>
    }
  }

  lemma {:induction false} AlwaysTold(w: World, r: Run, env: Env, fates: nat -> Fate, n: nat)
    requires AtStart(w, r)
    ensures InRange(r)
    ensures var (v, x) := Suffered(w, r, env, fates, n); Told(w.row.value.draftDigest, v, x)
  {
    if n == 0 {
      StepPlaces(r.applied);
    } else {
      var before := n - 1;
      AlwaysTold(w, r, env, fates, before);
      SufferedNext(w, r, env, fates, before, n);
      var (v, q) := Suffered(w, r, env, fates, before);
      ToldOn(w.row.value.draftDigest, v, q, env, fates(before));
    }
  }

  // ---------------------------------------------------------------- every run ends

  /** What becomes of the run itself: unless its gateway call throws, it is as with the write taken or refused. */
  lemma SufferedRun(w: World, r: Run, env: Env, fate: Fate)
    requires InRange(r)
    ensures fate.Lost? && r.phase.Marked? ==>
      Suffer(w, r, env, fate) == LoseReply(w, r, r.phase.at, env, fate.code, fate.sent)
    ensures !(fate.Lost? && r.phase.Marked?) ==> Suffer(w, r, env, fate).1 == Advance(w, r, env, !ToldFailed(fate)).1
  {
  }

  lemma LostFails(w: World, r: Run, env: Env, code: ErrorCode, sent: bool)
    requires Shape(r) && r.phase.Marked?
    ensures var q := LoseReply(w, r, r.phase.at, env, code, sent).1;
      || (q.phase.Ending? && q.applied == r.applied
          && q.failure.Some? && q.failure.value.failedStep == STEP_ORDER[r.phase.at])
      || q.phase.Executed?
  {
  }

  lemma SufferCloser(w: World, r: Run, env: Env, fate: Fate)
    requires Shape(r)
    ensures InRange(r) && Left(r) >= 0 && (Left(r) == 0 <==> Over(r))
    ensures Left(Suffer(w, r, env, fate).1) < Left(r) || (Over(r) && Suffer(w, r, env, fate).1 == r)
  {
    SufferedRun(w, r, env, fate);
    AdvanceCloser(w, r, env, !ToldFailed(fate));
    if fate.Lost? && r.phase.Marked? {
      LostCloser(w, r, env, fate.code, fate.sent);
    }
  }

  lemma LostCloser(w: World, r: Run, env: Env, code: ErrorCode, sent: bool)
    requires Shape(r) && r.phase.Marked?
    ensures Left(LoseReply(w, r, r.phase.at, env, code, sent).1) < Left(r)
  {
  }

  /** After n stretches n awaits fewer are left, or the run is over. */
  predicate Shorter(r: Run, x: Run, n: nat) {
    Left(x) <= Left(r) - n || Over(x)
  }

  lemma {:induction false} AlwaysShorter(w: World, r: Run, env: Env, fates: nat -> Fate, n: nat)
    requires AtStart(w, r)
    ensures InRange(r) && Shorter(r, Suffered(w, r, env, fates, n).1, n)
  {
    if n > 0 {
      var before := n - 1;
      AlwaysShorter(w, r, env, fates, before);
      AlwaysTold(w, r, env, fates, before);
      SufferedNext(w, r, env, fates, before, n);
      var (v, q) := Suffered(w, r, env, fates, before);
      SufferCloser(v, q, env, fates(before));
    }
  }

  lemma EndsAnyway(w: World, r: Run, env: Env, fates: nat -> Fate, n: nat)
    requires AtStart(w, r) && n >= RUN_LENGTH
    ensures InRange(r) && Over(Suffered(w, r, env, fates, n).1)
  {
    AlwaysShorter(w, r, env, fates, n);
    AlwaysTold(w, r, env, fates, n);
    var (v, x) := Suffered(w, r, env, fates, n);
    AdvanceCloser(v, x, env, true);
  }

  // ---------------------------------------------------------------- failed writes

  ghost predicate FailsAfter(w: World, r: Run, env: Env, fates: nat -> Fate, at: nat, k: nat)
    requires InRange(r)
  {
    Suffered(w, r, env, fates, k).1.phase == Executed(at) && ToldFailed(fates(k))
  }

  /** The write right after step `at` failed, as far as the run is told, and the k-th, which is the next one, went through. */
  ghost predicate FailedBefore(w: World, r: Run, env: Env, fates: nat -> Fate, at: nat, k: nat)
    requires InRange(r)
  {
    k > 0 && !ToldFailed(fates(k)) && var before := k - 1; FailsAfter(w, r, env, fates, at, before)
  }

  /** The k-th write was to start a step or to end the run, and failed as far as the run is told. */
  ghost predicate FailedOutside(w: World, r: Run, env: Env, fates: nat -> Fate, k: nat)
    requires InRange(r)
  {
    var phase := Suffered(w, r, env, fates, k).1.phase; (phase.Head? || phase.Ending?) && ToldFailed(fates(k))
  }

  /** PARTIAL, with the last step applied and blamed. */
  predicate StoppedAfter(x: Run, at: nat) {
    && at < |STEP_ORDER| && |x.applied| == at + 1 && x.failure.Some? && x.failure.value.failedStep == STEP_ORDER[at]
    && x.phase == Done(Partial)
  }

  predicate StoppingAfter(x: Run, at: nat) {
    && at < |STEP_ORDER| && |x.applied| == at + 1 && x.failure.Some? && x.failure.value.failedStep == STEP_ORDER[at]
    && x.phase == Ending(Partial)
  }

  lemma StoppingAdvance(w: World, r: Run, env: Env, saved: bool, at: nat)
    requires Shape(r) && w.row.Some?
    ensures InRange(r)
    ensures StoppingAfter(Advance(w, r, env, saved).1, at) <==> r.phase == Executed(at) && !saved
    ensures StoppedAfter(Advance(w, r, env, saved).1, at) <==> StoppedAfter(r, at) || (StoppingAfter(r, at) && saved)
  {
    if r.phase.Head? {
      HeadAdvance(w, r, env, saved);
    } else if r.phase.Marked? {
      StepNeverStops(w, r, env, at);
    }
  }

  lemma StepNeverStops(w: World, r: Run, env: Env, at: nat)
    requires Shape(r) && r.phase.Marked?
    ensures var q := Execute(w, r, r.phase.at, env).1; !StoppingAfter(q, at) && !StoppedAfter(q, at)
  {
  }

  lemma LostNeverStops(w: World, r: Run, env: Env, code: ErrorCode, sent: bool, at: nat)
    requires Shape(r) && r.phase.Marked?
    ensures var q := LoseReply(w, r, r.phase.at, env, code, sent).1; !StoppingAfter(q, at) && !StoppedAfter(q, at)
  {
    LostFails(w, r, env, code, sent);
  }

  lemma StoppingNext(w: World, r: Run, env: Env, fate: Fate, at: nat)
    requires Shape(r) && w.row.Some?
    ensures InRange(r)
    ensures StoppingAfter(Suffer(w, r, env, fate).1, at) <==> r.phase == Executed(at) && ToldFailed(fate)
    ensures StoppedAfter(Suffer(w, r, env, fate).1, at) <==>
      StoppedAfter(r, at) || (StoppingAfter(r, at) && !ToldFailed(fate))
  {
    SufferedRun(w, r, env, fate);
    if fate.Lost? && r.phase.Marked? {
      LostNeverStops(w, r, env, fate.code, fate.sent, at);
    } else {
      StoppingAdvance(w, r, env, !ToldFailed(fate), at);
    }
  }

  lemma StoppingExactly(w: World, r: Run, env: Env, fates: nat -> Fate, k: nat, n: nat, at: nat)
    requires AtStart(w, r) && n == k + 1
    ensures InRange(r)
    ensures StoppingAfter(Suffered(w, r, env, fates, n).1, at) <==> FailsAfter(w, r, env, fates, at, k)
  {
    AlwaysTold(w, r, env, fates, k);
    SufferedNext(w, r, env, fates, k, n);
    var (v, q) := Suffered(w, r, env, fates, k);
    StoppingNext(v, q, env, fates(k), at);
  }

  /** The run is about to stop so exactly when the write before was the one after the step, and failed. */
  lemma AboutToStop(w: World, r: Run, env: Env, fates: nat -> Fate, k: nat, at: nat)
    requires AtStart(w, r)
    ensures InRange(r)
    ensures StoppingAfter(Suffered(w, r, env, fates, k).1, at) && !ToldFailed(fates(k)) <==>
      FailedBefore(w, r, env, fates, at, k)
  {
    if k > 0 {
      var before := k - 1;
      StoppingExactly(w, r, env, fates, before, k, at);
      FailedJustBefore(w, r, env, fates, at, before, k);
    }
  }

  lemma FailedJustBefore(w: World, r: Run, env: Env, fates: nat -> Fate, at: nat, before: nat, k: nat)
    requires InRange(r) && k == before + 1
    ensures FailedBefore(w, r, env, fates, at, k) <==> !ToldFailed(fates(k)) && FailsAfter(w, r, env, fates, at, before)
  {
  }

  lemma StoppedAfterNext(w: World, r: Run, env: Env, fates: nat -> Fate, k: nat, n: nat, at: nat)
    requires AtStart(w, r) && n == k + 1
    ensures InRange(r)
    ensures StoppedAfter(Suffered(w, r, env, fates, n).1, at) <==>
      StoppedAfter(Suffered(w, r, env, fates, k).1, at) || FailedBefore(w, r, env, fates, at, k)
  {
    AlwaysTold(w, r, env, fates, k);
    SufferedNext(w, r, env, fates, k, n);
    var (v, q) := Suffered(w, r, env, fates, k);
    StoppingNext(v, q, env, fates(k), at);
    AboutToStop(w, r, env, fates, k, at);
  }

  lemma {:induction false} StoppedSince(w: World, r: Run, env: Env, fates: nat -> Fate, n: nat, at: nat) returns (k: nat)
    requires AtStart(w, r) && InRange(r) && StoppedAfter(Suffered(w, r, env, fates, n).1, at)
    ensures k < n && FailedBefore(w, r, env, fates, at, k)
  {
    var before := n - 1;
    StoppedAfterNext(w, r, env, fates, before, n, at);
    if StoppedAfter(Suffered(w, r, env, fates, before).1, at) {
      k := StoppedSince(w, r, env, fates, before, at);
    } else {
      k := before;
    }
  }

  lemma StaysStopped(w: World, r: Run, env: Env, fates: nat -> Fate, k: nat, n: nat, at: nat)
    requires AtStart(w, r) && InRange(r) && k < n && FailedBefore(w, r, env, fates, at, k)
    ensures StoppedAfter(Suffered(w, r, env, fates, n).1, at)
  {
    var next := k + 1;
    StoppedAfterNext(w, r, env, fates, k, next, at);
    OverStays(w, r, env, fates, next, n);
  }

  /** A run ends in PARTIAL blaming the last step it has applied exactly when the write after that step failed and the next
      write, the last one, went through. */
  lemma StoppedExactly(w: World, r: Run, env: Env, fates: nat -> Fate, n: nat, at: nat)
    requires AtStart(w, r)
    ensures InRange(r)
    ensures StoppedAfter(Suffered(w, r, env, fates, n).1, at) <==>
      exists k :: 0 <= k < n && FailedBefore(w, r, env, fates, at, k)
  {
    if StoppedAfter(Suffered(w, r, env, fates, n).1, at) {
      var k := StoppedSince(w, r, env, fates, n, at);
    }
    if k :| 0 <= k < n && FailedBefore(w, r, env, fates, at, k) {
      StaysStopped(w, r, env, fates, k, n, at);
    }
  }

  lemma ThrowsExactly(w: World, r: Run, env: Env, fate: Fate)
    requires Shape(r) && w.row.Some?
    ensures InRange(r)
    ensures Suffer(w, r, env, fate).1.phase.Threw? <==>
      r.phase.Threw? || ((r.phase.Head? || r.phase.Ending?) && ToldFailed(fate))
  {
    SufferedRun(w, r, env, fate);
    if fate.Lost? && r.phase.Marked? {
      LostFails(w, r, env, fate.code, fate.sent);
    }
  }

  lemma ThrewNext(w: World, r: Run, env: Env, fates: nat -> Fate, k: nat, n: nat)
    requires AtStart(w, r) && n == k + 1
    ensures InRange(r)
    ensures Suffered(w, r, env, fates, n).1.phase.Threw? <==>
      Suffered(w, r, env, fates, k).1.phase.Threw? || FailedOutside(w, r, env, fates, k)
  {
    AlwaysTold(w, r, env, fates, k);
    SufferedNext(w, r, env, fates, k, n);
    var (v, q) := Suffered(w, r, env, fates, k);
    ThrowsExactly(v, q, env, fates(k));
  }

  lemma {:induction false} ThrewSince(w: World, r: Run, env: Env, fates: nat -> Fate, n: nat) returns (k: nat)
    requires AtStart(w, r) && InRange(r) && Suffered(w, r, env, fates, n).1.phase.Threw?
    ensures k < n && FailedOutside(w, r, env, fates, k)
  {
    var before := n - 1;
    ThrewNext(w, r, env, fates, before, n);
    if Suffered(w, r, env, fates, before).1.phase.Threw? {
      k := ThrewSince(w, r, env, fates, before);
    } else {
      k := before;
    }
  }

  lemma StaysThrown(w: World, r: Run, env: Env, fates: nat -> Fate, k: nat, n: nat)
    requires AtStart(w, r) && InRange(r) && k < n && FailedOutside(w, r, env, fates, k)
    ensures Suffered(w, r, env, fates, n).1.phase.Threw?
  {
    var next := k + 1;
    ThrewNext(w, r, env, fates, k, next);
    OverStays(w, r, env, fates, next, n);
  }

  /** A run throws exactly when a write that starts a step or ends the run fails. */
  lemma ThrewExactly(w: World, r: Run, env: Env, fates: nat -> Fate, n: nat)
    requires AtStart(w, r)
    ensures InRange(r)
    ensures Suffered(w, r, env, fates, n).1.phase.Threw? <==>
      exists k :: 0 <= k < n && FailedOutside(w, r, env, fates, k)
  {
    if Suffered(w, r, env, fates, n).1.phase.Threw? {
      var k := ThrewSince(w, r, env, fates, n);
    }
    if k :| 0 <= k < n && FailedOutside(w, r, env, fates, k) {
      StaysThrown(w, r, env, fates, k, n);
    }
  }

  // ---------------------------------------------------------------- outcomes

  /** Whatever faults it meets, a run ends, thrown or done, and when it is done the saved row, still bound to the same
      draft, says how: COMPLETED with all five steps and no failure; PARTIAL with a failure, of the next step or of the
      write after the last one applied; for review exactly when it found a possible match itself and nothing failed; never
      FAILED. */
  lemma OutcomeAnyFaults(w: World, r: Run, env: Env, fates: nat -> Fate, n: nat)
    requires AtStart(w, r) && n >= RUN_LENGTH
    ensures InRange(r) && var (v, x) := Suffered(w, r, env, fates, n);
      && (x.phase.Done? || x.phase.Threw?) && v.row.Some? && v.row.value.draftDigest == w.row.value.draftDigest
      && (x.phase.Done? ==>
            var t, row := x.phase.outcome, v.row.value;
            && row.state == Final(t) && row.appliedSteps == x.applied && row.stepResults == x.results
            && row.lastError == x.failure && Prefix(x.applied) && t != FinalState.Failed
            && (t == Completed <==> x.applied == STEP_ORDER && x.failure.None?)
            && (t == Partial <==> x.failure.Some?)
            && (t == Partial ==> x.applied != [] && (StoppedAfter(x, |x.applied| - 1) || FailedNext(x)))
            && (t == ReviewPending <==> |x.loaded| < 2 && ShowsPossible(x.results) && x.failure.None?)
            && (t == ReviewPending ==> |x.applied| == 2))
  {
    AlwaysTold(w, r, env, fates, n);
    EndsAnyway(w, r, env, fates, n);
  }

  /** The first step not applied is to blame. */
  predicate FailedNext(x: Run) {
    |x.applied| < |STEP_ORDER| && x.failure.Some? && x.failure.value.failedStep == STEP_ORDER[|x.applied|]
  }

  /** PARTIAL holds all five steps exactly when the write after AVAILABILITY failed and the last one went through; in every
      other PARTIAL run a step is missing. */
  lemma PartialWithAllSteps(w: World, r: Run, env: Env, fates: nat -> Fate, n: nat)
    requires AtStart(w, r)
    ensures InRange(r) && var x := Suffered(w, r, env, fates, n).1;
      x.phase == Done(Partial) ==>
      (x.applied == STEP_ORDER <==> exists k :: 0 <= k < n && FailedBefore(w, r, env, fates, 4, k))
      && (x.applied != STEP_ORDER ==> x.applied < STEP_ORDER && x.applied != [])
    ensures (exists k :: 0 <= k < n && FailedBefore(w, r, env, fates, 4, k)) ==>
      Suffered(w, r, env, fates, n).1.phase == Done(Partial)
  {
    AlwaysTold(w, r, env, fates, n);
    StoppedExactly(w, r, env, fates, n, 4);
  }

  // ---------------------------------------------------------------- such a run

  const FOUND_ID: Text := Ascii("p")

  /** Every step is carried out, the identity found. */
  function Helpful(): Fixture<Data> {
    Fixture({InboundDefault},
            {CreateOrMatchLaborProfile, UpdateLaborProfile, OpenPlacementCase, UpdateLaborAvailability},
            Applies(Data(Some(ExactMatch), Some(FOUND_ID), None, None, false, Some(FOUND_ID), None, None, None, None, None)))
  }

  function HelpfulEnv(time: Text, clock: int): Env {
    Env(Helpful(), Helpful(), Helpful(), Helpful(), time, clock)
  }

  /** No step from the i-th on is cached, and the profile is found by then. */
  ghost predicate Untouched(g: Gateway, req: IntakeRequest, target: Target, i: nat) {
    && (forall j :: i <= j < |STEP_ORDER| && j > 0 ==>
          StepCacheKey(req.organizationId, req.intakeRevisionId, STEP_ORDER[j]) !in g.cache)
    && (i >= 2 ==> target.id == Some(FOUND_ID))
  }

  lemma HelpfulStep(req: IntakeRequest, target: Target, g: Gateway, time: Text, clock: int, i: nat)
    requires i < |STEP_ORDER| && HexDigest(req.draftDigest) && Untouched(g, req, target, i)
    ensures var (h, outcome) := Perform(STEP_ORDER[i], req, target, g, HelpfulEnv(time, clock));
      && outcome.Success? && (i == 1 ==> outcome.result.IdentityResult? && outcome.result.kind.ExactMatch?)
      && Retarget(target, outcome.result).id == (if i == 1 then Some(FOUND_ID) else target.id)
      && (forall k :: k in h.cache ==>
            k in g.cache || (i > 0 && k == StepCacheKey(req.organizationId, req.intakeRevisionId, STEP_ORDER[i])))
  {
  }

  lemma StillUntouched(g: Gateway, h: Gateway, req: IntakeRequest, target: Target, after: Target, i: nat)
    requires i < |STEP_ORDER| && Untouched(g, req, target, i)
    requires after.id == if i == 1 then Some(FOUND_ID) else target.id
    requires forall k :: k in h.cache ==>
      k in g.cache || (i > 0 && k == StepCacheKey(req.organizationId, req.intakeRevisionId, STEP_ORDER[i]))
    ensures Untouched(h, req, after, i + 1)
  {
    forall j | i + 1 <= j < |STEP_ORDER|
      ensures StepCacheKey(req.organizationId, req.intakeRevisionId, STEP_ORDER[j]) !in h.cache
    {
      if i > 0 {
        StepKeysDistinct(req.organizationId, req.intakeRevisionId, STEP_ORDER[i], STEP_ORDER[j]);
      }
    }
  }

  /** The run has i steps behind it, all of its own, and nothing in its way. */
  ghost predicate Helped(w: World, r: Run, i: nat) {
    && Shape(r) && r.phase.Head? && r.loaded == [] && |r.applied| == i && w.row.Some?
    && Untouched(w.gateway, r.req, r.target, i)
  }

  /** And has just executed its next one. */
  ghost predicate HelpedThrough(w: World, r: Run, i: nat) {
    && Shape(r) && r.phase == Executed(i) && r.loaded == [] && w.row.Some? && !StoppedForReview(STEP_ORDER[i], r.results)
    && Untouched(w.gateway, r.req, r.target, i + 1)
  }

  lemma HelpedExecutes(w: World, r: Run, time: Text, clock: int, i: nat)
    requires Shape(r) && r.phase == Marked(i) && r.loaded == [] && w.row.Some? && Untouched(w.gateway, r.req, r.target, i)
    ensures var (v, q) := Execute(w, r, i, HelpfulEnv(time, clock)); HelpedThrough(v, q, i)
  {
    var env := HelpfulEnv(time, clock);
    HelpfulStep(r.req, r.target, w.gateway, time, clock, i);
    ExecuteShape(w, r, i, env);
    var (h, outcome) := Perform(STEP_ORDER[i], r.req, r.target, w.gateway, env);
    StillUntouched(w.gateway, h, r.req, r.target, Retarget(r.target, outcome.result), i);
  }

  lemma HelpedMarks(w: World, r: Run, time: Text, clock: int, i: nat)
    requires Helped(w, r, i) && i < |STEP_ORDER|
    ensures InRange(r) && var (v, q) := Advance(w, r, HelpfulEnv(time, clock), true);
      && Shape(q) && q.phase == Marked(i) && q.loaded == [] && v.row.Some? && Untouched(v.gateway, q.req, q.target, i)
  {
    HeadAdvance(w, r, HelpfulEnv(time, clock), true);
    AdvanceShape(w, r, HelpfulEnv(time, clock), true);
  }

  lemma HelpedCommits(w: World, r: Run, time: Text, clock: int, i: nat)
    requires HelpedThrough(w, r, i)
    ensures InRange(r) && var (v, q) := Advance(w, r, HelpfulEnv(time, clock), true); Helped(v, q, i + 1)
  {
    CommitShape(w, r, i, true);
  }

  lemma HelpedTwice(w: World, r: Run, time: Text, clock: int, fates: nat -> Fate, i: nat, n: nat, m: nat)
    requires InRange(r) && i < |STEP_ORDER| && fates(n) == fates(n + 1) == Taken && m == n + 2
    requires HelpedAt(w, r, time, clock, fates, i, n)
    ensures var (v, q) := Suffered(w, r, HelpfulEnv(time, clock), fates, m); HelpedThrough(v, q, i)
  {
    var env := HelpfulEnv(time, clock);
    var next := n + 1;
    var (v, q) := Suffered(w, r, env, fates, n);
    HelpedMarks(v, q, time, clock, i);
    SufferedNext(w, r, env, fates, n, next);
    SufferedNext(w, r, env, fates, next, m);
    var (u, p) := Suffered(w, r, env, fates, next);
    HelpedExecutes(u, p, time, clock, i);
  }

  ghost predicate HelpedAt(w: World, r: Run, time: Text, clock: int, fates: nat -> Fate, i: nat, n: nat)
    requires InRange(r)
  {
    var (v, q) := Suffered(w, r, HelpfulEnv(time, clock), fates, n); Helped(v, q, i)
  }

  lemma HelpedThrice(w: World, r: Run, time: Text, clock: int, fates: nat -> Fate, i: nat, n: nat, m: nat)
    requires InRange(r) && i < |STEP_ORDER| && fates(n) == fates(n + 1) == fates(n + 2) == Taken && m == n + 3
    requires HelpedAt(w, r, time, clock, fates, i, n)
    ensures HelpedAt(w, r, time, clock, fates, i + 1, m)
  {
    var before := n + 2;
    HelpedTwice(w, r, time, clock, fates, i, n, before);
    SufferedNext(w, r, HelpfulEnv(time, clock), fates, before, m);
    var (v, q) := Suffered(w, r, HelpfulEnv(time, clock), fates, before);
    HelpedCommits(v, q, time, clock, i);
  }

  lemma {:induction false} HelpedUpTo(w: World, r: Run, time: Text, clock: int, fates: nat -> Fate, i: nat, n: nat)
    requires Helped(w, r, 0) && InRange(r) && i <= |STEP_ORDER| && n == 3 * i && forall k :: 0 <= k < n ==> fates(k) == Taken
    ensures HelpedAt(w, r, time, clock, fates, i, n)
  {
    if i > 0 {
      var j, m := i - 1, n - 3;
      HelpedUpTo(w, r, time, clock, fates, j, m);
      HelpedThrice(w, r, time, clock, fates, j, m, n);
    }
  }

  lemma LastRefused(w: World, r: Run, time: Text, clock: int, fates: nat -> Fate, i: nat, commit: nat, n: nat)
    requires Helped(w, r, 0) && InRange(r) && i + 1 == |STEP_ORDER| && commit == 3 * i + 2 && n >= commit + 2
    requires forall k :: 0 <= k < n && k != commit ==> fates(k) == Taken
    requires fates(commit) == Refused
    ensures Suffered(w, r, HelpfulEnv(time, clock), fates, n).1.phase == Done(Partial)
    ensures Suffered(w, r, HelpfulEnv(time, clock), fates, n).1.applied == STEP_ORDER
  {
    var start, last := commit - 2, commit + 1;
    HelpedUpTo(w, r, time, clock, fates, i, start);
    HelpedTwice(w, r, time, clock, fates, i, start, commit);
    assert FailsAfter(w, r, HelpfulEnv(time, clock), fates, i, commit);
    assert FailedBefore(w, r, HelpfulEnv(time, clock), fates, i, last);
    PartialWithAllSteps(w, r, HelpfulEnv(time, clock), fates, n);
  }

  /** The place of the write after AVAILABILITY in a first run: each step takes three awaits. */
  function LastCommit(): nat {
    3 * (|STEP_ORDER| - 1) + 2
  }

  /** There is such a run: a first one in which every step succeeds and only the write after AVAILABILITY is refused. */
  lemma AllStepsInPartial(req: IntakeRequest, time: Text, clock: int, n: nat)
    requires Admit(World(None, Fresh()), req, ByRun).1.Admitted? && n >= RUN_LENGTH
    ensures var (v, a) := Admit(World(None, Fresh()), req, ByRun);
      InRange(a.run) && var x := Suffered(v, a.run, HelpfulEnv(time, clock), k => if k == LastCommit() then Refused else Taken, n).1;
      x.phase == Done(Partial) && x.applied == STEP_ORDER
  {
    var (v, a) := Admit(World(None, Fresh()), req, ByRun);
    assert Helped(v, a.run, 0);
    LastRefused(v, a.run, time, clock, k => if k == LastCommit() then Refused else Taken, |STEP_ORDER| - 1, LastCommit(), n);
  }
}
