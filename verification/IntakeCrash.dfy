/** A run cut off at any await and continued with the same request, against the run left alone. */
module IntakeCrashes {
  import opened Ordering
  import opened IntakeSteps
  import opened IntakeRuns

  /** n stretches of a run from await to await, every write taken. */
  function Steps(w: World, r: Run, env: Env, n: nat): (s: (World, Run))
    requires InRange(r)
    ensures InRange(s.1)
    decreases n
  {
    if n == 0 then (w, r) else var (v, q) := Advance(w, r, env, true); Steps(v, q, env, n - 1)
  }

  /** Three awaits for each of five steps, two at the end. */
  const RUN_LENGTH: nat := 17

  function Finish(w: World, r: Run, env: Env): (World, Run)
    requires InRange(r)
  {
    Steps(w, r, env, RUN_LENGTH)
  }

  lemma {:induction false} StepsCompose(w: World, r: Run, env: Env, m: nat, n: nat)
    requires InRange(r)
    ensures var (v, q) := Steps(w, r, env, m); Steps(w, r, env, m + n) == Steps(v, q, env, n)
    decreases m
  {
    if m > 0 {
      var (v, q) := Advance(w, r, env, true);
      StepsCompose(v, q, env, m - 1, n);
    }
  }

  // ------------------------------------------------- what the saved row knows about a run

  ghost predicate Fits(row: Row, r: Run) {
    row.appliedSteps == r.applied && row.stepResults == r.results && row.target == r.target
  }

  /** The executed step, done again from the saved row, would tell the same and change nothing. */
  ghost predicate Redone(w: World, row: Row, r: Run, at: nat, env: Env)
    requires at < |STEP_ORDER|
  {
    var step := STEP_ORDER[at];
    var (gateway, outcome) := Perform(step, r.req, row.target, w.gateway, env);
    && row == Row(row.draftDigest, row.target, Some(step), Running, row.appliedSteps, row.stepResults, None)
    && gateway == w.gateway && outcome.Success?
    && r.applied == row.appliedSteps + [step]
    && r.results == Record(row.stepResults, step, outcome.result)
    && r.target == Retarget(row.target, outcome.result)
  }

  /** The failed step would fail again, the same way. */
  ghost predicate FailsAgain(w: World, r: Run, env: Env) {
    && |r.applied| < |STEP_ORDER| && r.failure.Some?
    && var step := STEP_ORDER[|r.applied|];
       && r.failure.value.failedStep == step
       && Perform(step, r.req, r.target, w.gateway, env)
          == (w.gateway, Failure(r.failure.value.code, r.failure.value.retryable))
  }

  ghost predicate InReview(r: Run) {
    r.phase == Ending(ReviewPending) || r.phase == Done(ReviewPending)
  }

  /** A run stops right after finding a possible match itself. */
  ghost predicate NeverPastReview(r: Run) {
    |r.loaded| < 2 && r.phase != Executed(1) && !InReview(r) ==> !ShowsPossible(r.results)
  }

  ghost predicate Consistent(w: World, r: Run, env: Env) {
    && Shape(r) && NeverPastReview(r) && w.row.Some?
    && var row := w.row.value;
       && row.draftDigest == r.req.draftDigest && RowShape(row)
       && match r.phase
          case Head(_) => Fits(row, r)
          case Marked(at) => Fits(row, r) && row == MarkRow(row, r, STEP_ORDER[at])
          case Executed(at) => Redone(w, row, r, at, env)
          case Ending(t) => Fits(row, r) && t != Completed &&
            (t.Partial? ==> FailsAgain(w, r, env) && row == MarkRow(row, r, r.failure.value.failedStep))
          case Done(t) => Fits(row, r) && row == FinalRow(row, r, t) && (t.Partial? ==> FailsAgain(w, r, env))
          case Threw => false
  }

  lemma HeadAdvance(w: World, r: Run, env: Env, saved: bool)
    requires Shape(r) && r.phase.Head?
    ensures InRange(r) && Advance(w, r, env, saved) ==
        (if |r.applied| == |STEP_ORDER| then Persist(w, r, Completed, saved) else Begin(w, r, |r.applied|, saved))
  {
    NextIsFirstUnapplied(r.loaded, r.phase.next);
  }

  lemma BeginConsistent(w: World, r: Run, env: Env, n: nat)
    requires Consistent(w, r, env) && r.phase == Head(n)
    ensures InRange(r) && var (v, q) := Advance(w, r, env, true); Consistent(v, q, env)
  {
    HeadAdvance(w, r, env, true);
  }

  lemma SuccessConsistent(w: World, r: Run, env: Env, at: nat)
    requires Consistent(w, r, env) && r.phase == Marked(at)
    requires Perform(STEP_ORDER[at], r.req, r.target, w.gateway, env).1.Success?
    ensures var (v, q) := Execute(w, r, at, env); Consistent(v, q, env)
  {
    ExecuteShape(w, r, at, env);
    RetryIdempotent(STEP_ORDER[at], r.req, r.target, w.gateway, env);
  }

  lemma FailureConsistent(w: World, r: Run, env: Env, at: nat)
    requires Consistent(w, r, env) && r.phase == Marked(at)
    requires Perform(STEP_ORDER[at], r.req, r.target, w.gateway, env).1.Failure?
    ensures var (v, q) := Execute(w, r, at, env); Consistent(v, q, env)
  {
    ExecuteShape(w, r, at, env);
    RetryIdempotent(STEP_ORDER[at], r.req, r.target, w.gateway, env);
  }

  /** The write after a step makes the row tell what the run knows. */
  lemma CommitFits(w: World, r: Run, env: Env, at: nat)
    requires Consistent(w, r, env) && r.phase == Executed(at)
    ensures Fits(CommitRow(w.row.value, r, STEP_ORDER[at]), r)
  {
  }

  lemma CommitConsistent(w: World, r: Run, env: Env, at: nat)
    requires Consistent(w, r, env) && r.phase == Executed(at)
    ensures InRange(r) && var (v, q) := Advance(w, r, env, true); Consistent(v, q, env)
  {
    CommitFits(w, r, env, at);
    CommitShape(w, r, at, true);
    CommitStops(w, r, at);
  }

  /** The write after a possible match ends the run. */
  lemma CommitStops(w: World, r: Run, at: nat)
    requires Shape(r) && NeverPastReview(r) && w.row.Some? && r.phase == Executed(at)
    ensures NeverPastReview(Commit(w, r, at, true).1)
  {
  }

  lemma AdvanceConsistent(w: World, r: Run, env: Env)
    requires Consistent(w, r, env)
    ensures InRange(r) && var (v, q) := Advance(w, r, env, true); Consistent(v, q, env)
  {
    match r.phase {
      case Head(n) => BeginConsistent(w, r, env, n);
      case Marked(at) =>
        if Perform(STEP_ORDER[at], r.req, r.target, w.gateway, env).1.Success? {
          SuccessConsistent(w, r, env, at);
        } else {
          FailureConsistent(w, r, env, at);
        }
      case Executed(at) => CommitConsistent(w, r, env, at);
      case _ =>
    }
  }

  lemma {:induction false} StepsConsistent(w: World, r: Run, env: Env, n: nat)
    requires Consistent(w, r, env)
    ensures InRange(r) && var (v, q) := Steps(w, r, env, n); Consistent(v, q, env)
    decreases n
  {
    AdvanceConsistent(w, r, env);
    if n > 0 {
      var (v, q) := Advance(w, r, env, true);
      StepsConsistent(v, q, env, n - 1);
    }
  }

  lemma {:induction false} StepsKeepRequest(w: World, r: Run, env: Env, n: nat)
    requires InRange(r)
    ensures var q := Steps(w, r, env, n).1; q.req == r.req && q.loaded == r.loaded
    decreases n
  {
    if n > 0 {
      var (v, q) := Advance(w, r, env, true);
      StepsKeepRequest(v, q, env, n - 1);
    }
  }

  // ---------------------------------------------------------------- ending

  /** How many awaits are left at most. */
  function Left(r: Run): int {
    match r.phase
    case Head(_) => 3 * (5 - |r.applied|) + 1
    case Marked(_) => 3 * (5 - |r.applied|)
    case Executed(_) => 3 * (5 - |r.applied|) + 2
    case Ending(_) => 1
    case Done(_) => 0
    case Threw => 0
  }

  lemma HeadCloser(w: World, r: Run, env: Env, saved: bool)
    requires Shape(r) && r.phase.Head?
    ensures InRange(r) && 0 <= Left(Advance(w, r, env, saved).1) < Left(r)
  {
    HeadAdvance(w, r, env, saved);
  }

  lemma StepCloser(w: World, r: Run, env: Env, saved: bool)
    requires Shape(r) && (r.phase.Marked? || r.phase.Executed?)
    ensures InRange(r) && Left(Advance(w, r, env, saved).1) < Left(r) && Left(r) > 0
  {
  }

  /** Every await, its write taken or refused, brings a run nearer to its end. */
  lemma AdvanceCloser(w: World, r: Run, env: Env, saved: bool)
    requires Shape(r)
    ensures InRange(r) && Left(r) >= 0 && (Left(r) == 0 <==> Over(r))
    ensures Over(r) ==> Advance(w, r, env, saved) == (w, r)
    ensures Left(Advance(w, r, env, saved).1) < Left(r) || Over(r)
  {
    if r.phase.Head? {
      HeadCloser(w, r, env, saved);
    } else if r.phase.Marked? || r.phase.Executed? {
      StepCloser(w, r, env, saved);
    }
  }

  /** One await is taken, or the run is over. */
  lemma OneAwaitLess(w: World, r: Run, env: Env)
    requires Consistent(w, r, env)
    ensures InRange(r) && Left(r) >= 0 && (Left(r) == 0 ==> r.phase.Done?)
    ensures r.phase.Done? ==> Advance(w, r, env, true) == (w, r)
    ensures var (v, q) := Advance(w, r, env, true); Consistent(v, q, env) && (Left(q) < Left(r) || r.phase.Done?)
  {
    AdvanceConsistent(w, r, env);
    AdvanceCloser(w, r, env, true);
  }

  lemma {:induction false} EnoughStepsEnd(w: World, r: Run, env: Env, n: nat)
    requires Consistent(w, r, env) && n >= Left(r)
    ensures InRange(r) && var (v, q) := Steps(w, r, env, n); Consistent(v, q, env) && q.phase.Done?
    decreases n
  {
    OneAwaitLess(w, r, env);
    if n > 0 {
      var (v, q) := Advance(w, r, env, true);
      EnoughStepsEnd(v, q, env, n - 1);
    }
  }

  lemma {:induction false} DoneStays(w: World, r: Run, env: Env, n: nat)
    requires r.phase.Done?
    ensures Steps(w, r, env, n) == (w, r)
    decreases n
  {
    if n > 0 {
      DoneStays(w, r, env, n - 1);
    }
  }

  /** Every run ends, and then stays as it is. */
  lemma RunEnds(w: World, r: Run, env: Env)
    requires Consistent(w, r, env)
    ensures InRange(r) && var (v, q) := Finish(w, r, env); Consistent(v, q, env) && q.phase.Done?
  {
    EnoughStepsEnd(w, r, env, RUN_LENGTH);
  }

  lemma FinishStable(w: World, r: Run, env: Env, n: nat)
    requires Consistent(w, r, env)
    ensures InRange(r) && Steps(w, r, env, n + RUN_LENGTH) == Finish(w, r, env)
  {
    RunEnds(w, r, env);
    var (v, q) := Finish(w, r, env);
    StepsCompose(w, r, env, RUN_LENGTH, n);
    DoneStays(v, q, env, n);
  }

  /** Carrying on from any point of a run leads to where the run leads. */
  lemma FinishFrom(w: World, r: Run, env: Env, k: nat)
    requires Consistent(w, r, env)
    ensures InRange(r) && var (v, q) := Steps(w, r, env, k); Finish(v, q, env) == Finish(w, r, env)
  {
    FinishStable(w, r, env, k);
    StepsCompose(w, r, env, k, RUN_LENGTH);
  }

  // ---------------------------------------------------------------- runs that go on alike

  ghost predicate SameTrace(r: Run, q: Run) {
    r.req == q.req && r.applied == q.applied && r.results == q.results && r.target == q.target && r.failure == q.failure
  }

  /** Two runs at the same point that differ at most in what they had loaded. */
  ghost predicate Alike(r: Run, q: Run) {
    Shape(r) && Shape(q) && SameTrace(r, q) && (r.phase == q.phase || (r.phase.Head? && q.phase.Head?))
  }

  lemma AlikeExecute(w: World, r: Run, q: Run, at: nat, env: Env)
    requires SameTrace(r, q) && r.phase == q.phase == Marked(at) && at < |STEP_ORDER|
    requires (r.loaded != [] || r.applied != []) == (q.loaded != [] || q.applied != [])
    ensures var ((v, x), (u, y)) := (Execute(w, r, at, env), Execute(w, q, at, env));
      v == u && SameTrace(x, y) && x.phase == y.phase
  {
  }

  lemma AlikeCommit(w: World, r: Run, q: Run, at: nat)
    requires SameTrace(r, q) && r.phase == q.phase == Executed(at) && at < |STEP_ORDER| && r.applied != []
    ensures var ((v, x), (u, y)) := (Commit(w, r, at, true), Commit(w, q, at, true));
      v == u && SameTrace(x, y) && x.phase == y.phase
  {
  }

  lemma AlikeHead(w: World, r: Run, q: Run)
    requires SameTrace(r, q) && |r.applied| <= |STEP_ORDER|
    ensures |r.applied| < |STEP_ORDER| ==>
      var ((v, x), (u, y)) := (Begin(w, r, |r.applied|, true), Begin(w, q, |r.applied|, true));
      v == u && SameTrace(x, y) && x.phase == y.phase
    ensures var ((v, x), (u, y)) := (Persist(w, r, Completed, true), Persist(w, q, Completed, true));
      v == u && SameTrace(x, y) && x.phase == y.phase
  {
  }

  lemma AlikeAdvance(w: World, r: Run, q: Run, env: Env)
    requires Alike(r, q)
    ensures InRange(r) && InRange(q)
    ensures var ((v, x), (u, y)) := (Advance(w, r, env, true), Advance(w, q, env, true));
      v == u && SameTrace(x, y) && x.phase == y.phase
  {
    match r.phase {
      case Head(_) =>
        HeadAdvance(w, r, env, true);
        HeadAdvance(w, q, env, true);
        AlikeHead(w, r, q);
      case Marked(at) => AlikeExecute(w, r, q, at, env);
      case Executed(at) => AlikeCommit(w, r, q, at);
      case _ =>
    }
  }

  lemma AdvanceAlike(w: World, r: Run, q: Run, env: Env)
    requires Alike(r, q)
    ensures InRange(r) && InRange(q)
    ensures var ((v, x), (u, y)) := (Advance(w, r, env, true), Advance(w, q, env, true)); v == u && Alike(x, y)
  {
    AdvanceShape(w, r, env, true);
    AdvanceShape(w, q, env, true);
    AlikeAdvance(w, r, q, env);
  }

  lemma {:induction false} AlikeSteps(w: World, r: Run, q: Run, env: Env, n: nat)
    requires Alike(r, q)
    ensures InRange(r) && InRange(q)
    ensures var ((v, x), (u, y)) := (Steps(w, r, env, n), Steps(w, q, env, n)); v == u && Alike(x, y)
    decreases n
  {
    AdvanceAlike(w, r, q, env);
    if n > 0 {
      var ((v, x), (u, y)) := (Advance(w, r, env, true), Advance(w, q, env, true));
      AlikeSteps(v, x, y, env, n - 1);
    }
  }

  // ---------------------------------------------------------------- loading again

  lemma LoadConsistent(w: World, r: Run, env: Env)
    requires Consistent(w, r, env) && Binds(r.req.confirmation, r.req.intakeRevisionId, w.row.value)
    ensures Consistent(w, Load(w.row.value, r.req), env)
  {
    StepPlaces(w.row.value.appliedSteps);
  }

  /** The awaits a reloaded run needs to catch up with the one that was cut off. */
  function Lag(r: Run): nat {
    match r.phase
    case Head(_) => 0
    case Marked(_) => 1
    case Executed(_) => 2
    case Ending(_) => 2
    case Done(t) => if t.Completed? then 1 else 3
    case Threw => 0
  }

  lemma OneStep(w: World, r: Run, env: Env)
    requires InRange(r)
    ensures Steps(w, r, env, 1) == Advance(w, r, env, true)
  {
  }

  lemma TwoSteps(w: World, r: Run, env: Env)
    requires InRange(r)
    ensures var (v, q) := Advance(w, r, env, true); Steps(w, r, env, 2) == Advance(v, q, env, true)
  {
    var (v, q) := Advance(w, r, env, true);
    StepsCompose(w, r, env, 1, 1);
    OneStep(w, r, env);
    OneStep(v, q, env);
  }

  lemma StepsNext(w: World, r: Run, env: Env, k: nat, n: nat)
    requires InRange(r) && n == k + 1
    ensures var (v, q) := Steps(w, r, env, k); Steps(w, r, env, n) == Advance(v, q, env, true)
  {
    StepsCompose(w, r, env, k, 1);
    var (v, q) := Steps(w, r, env, k);
    OneStep(v, q, env);
  }

  lemma MarkedAgain(w: World, r: Run, q: Run, env: Env, at: nat)
    requires Consistent(w, r, env) && r.phase == Marked(at)
    requires q == Load(w.row.value, r.req) && Shape(q) && q.target == w.row.value.target
    ensures InRange(q) && Advance(w, q, env, true) == (w, q.(phase := Marked(at)))
  {
    HeadAdvance(w, q, env, true);
  }

  lemma ExecutedAgain(w: World, r: Run, q: Run, env: Env, at: nat)
    requires Consistent(w, r, env) && r.phase == Executed(at)
    requires q == Load(w.row.value, r.req) && Shape(q) && q.target == w.row.value.target
    ensures InRange(q) && Advance(w, q, env, true) == (w, q.(phase := Marked(at)))
    ensures var (v, x) := Execute(w, q.(phase := Marked(at)), at, env); v == w && SameTrace(r, x) && x.phase == r.phase
  {
    HeadAdvance(w, q, env, true);
  }

  lemma FailedAgain(w: World, r: Run, q: Run, env: Env)
    requires Consistent(w, r, env) && (r.phase == Ending(Partial) || r.phase == Done(Partial))
    requires q == Load(w.row.value, r.req) && Shape(q) && q.target == w.row.value.target
    ensures InRange(q)
    ensures var at := |r.applied|; var marked := w.(row := Some(MarkRow(w.row.value, r, STEP_ORDER[at])));
      && Advance(w, q, env, true) == (marked, q.(phase := Marked(at)))
      && var (v, x) := Execute(marked, q.(phase := Marked(at)), at, env);
         v == marked && SameTrace(r, x) && x.phase == Ending(Partial)
  {
    HeadAdvance(w, q, env, true);
  }

  lemma CompletedAgain(w: World, r: Run, q: Run, env: Env)
    requires Consistent(w, r, env) && r.phase == Done(Completed)
    requires q == Load(w.row.value, r.req) && Shape(q) && q.target == w.row.value.target
    ensures InRange(q) && Advance(w, q, env, true) == (w, q.(phase := Done(Completed)))
  {
    HeadAdvance(w, q, env, true);
  }

  /** n awaits after loading, the second run stands where the first one was cut off, the world unchanged. */
  ghost predicate CaughtUp(w: World, r: Run, q: Run, env: Env, n: nat) {
    InRange(q) && var (v, y) := Steps(w, q, env, n);
    v == w && SameTrace(r, y) && (y.phase == r.phase || (y.phase.Head? && r.phase.Head?))
  }

  lemma FailureCatchesUp(w: World, r: Run, q: Run, env: Env)
    requires Consistent(w, r, env) && r.phase == Ending(Partial)
    requires q == Load(w.row.value, r.req) && Shape(q) && q.target == w.row.value.target
    ensures CaughtUp(w, r, q, env, 2)
  {
    FailedAgain(w, r, q, env);
    TwoSteps(w, q, env);
  }

  lemma PartialCatchesUp(w: World, r: Run, q: Run, env: Env)
    requires Consistent(w, r, env) && r.phase == Done(Partial)
    requires q == Load(w.row.value, r.req) && Shape(q) && q.target == w.row.value.target
    ensures CaughtUp(w, r, q, env, 3)
  {
    FailedAgain(w, r, q, env);
    TwoSteps(w, q, env);
    StepsCompose(w, q, env, 2, 1);
    var (v, x) := Steps(w, q, env, 2);
    OneStep(v, x, env);
  }

  lemma UnfinishedCatchesUp(w: World, r: Run, q: Run, env: Env)
    requires Consistent(w, r, env) && (r.phase.Head? || r.phase.Marked? || r.phase.Executed? || r.phase == Done(Completed))
    requires q == Load(w.row.value, r.req) && Shape(q) && q.target == w.row.value.target
    ensures CaughtUp(w, r, q, env, Lag(r))
  {
    match r.phase {
      case Head(_) =>
      case Marked(at) =>
        MarkedAgain(w, r, q, env, at);
        OneStep(w, q, env);
      case Executed(at) =>
        ExecutedAgain(w, r, q, env, at);
        TwoSteps(w, q, env);
      case Done(_) =>
        CompletedAgain(w, r, q, env);
        OneStep(w, q, env);
    }
  }

  lemma CatchesUp(w: World, r: Run, env: Env)
    requires Consistent(w, r, env) && Binds(r.req.confirmation, r.req.intakeRevisionId, w.row.value) && !InReview(r)
    ensures CaughtUp(w, r, Load(w.row.value, r.req), env, Lag(r))
  {
    var q := Load(w.row.value, r.req);
    LoadConsistent(w, r, env);
    if r.phase == Ending(Partial) {
      FailureCatchesUp(w, r, q, env);
    } else if r.phase == Done(Partial) {
      PartialCatchesUp(w, r, q, env);
    } else {
      UnfinishedCatchesUp(w, r, q, env);
    }
  }

  // ---------------------------------------------------------------- the theorems

  ghost predicate SameEnd(r: Run, q: Run) {
    SameTrace(r, q) && r.phase == q.phase
  }

  lemma ReloadAlike(w: World, r: Run, env: Env)
    requires Consistent(w, r, env) && Binds(r.req.confirmation, r.req.intakeRevisionId, w.row.value) && !InReview(r)
    ensures InRange(r) && InRange(Load(w.row.value, r.req))
    ensures var ((v, x), (u, y)) := (Finish(w, r, env), Finish(w, Load(w.row.value, r.req), env)); v == u && SameEnd(x, y)
  {
    var q := Load(w.row.value, r.req);
    LoadConsistent(w, r, env);
    CatchesUp(w, r, env);
    StepsConsistent(w, q, env, Lag(r));
    FinishFrom(w, q, env, Lag(r));
    var (v, y) := Steps(w, q, env, Lag(r));
    AlikeSteps(w, r, y, env, RUN_LENGTH);
    RunEnds(w, r, env);
    RunEnds(w, q, env);
  }

  lemma ReloadPastReview(w: World, r: Run, env: Env)
    requires Consistent(w, r, env) && Binds(r.req.confirmation, r.req.intakeRevisionId, w.row.value) && InReview(r)
    ensures InRange(r) && Finish(w, r, env).1.phase == Done(ReviewPending)
    ensures var q := Load(w.row.value, r.req); InRange(q) && Finish(w, q, env).1.phase != Done(ReviewPending)
  {
    var q := Load(w.row.value, r.req);
    LoadConsistent(w, r, env);
    RunEnds(w, q, env);
    StepsKeepRequest(w, q, env, RUN_LENGTH);
    if r.phase.Ending? {
      var (v, x) := Advance(w, r, env, true);
      DoneStays(v, x, env, RUN_LENGTH - 1);
    } else {
      DoneStays(w, r, env, RUN_LENGTH);
    }
  }

  /** The saved row shows a possible match found since the run loaded. */
  predicate FoundPossible(r: Run, row: Row) {
    |r.loaded| < 2 && |row.appliedSteps| == 2 && ShowsPossible(row.stepResults)
  }

  lemma FoundPossibleIsReview(w: World, r: Run, env: Env)
    requires Consistent(w, r, env)
    ensures InReview(r) <==> FoundPossible(r, w.row.value)
  {
    if r.phase.Executed? {
      StepPlaces(r.applied);
      StepPlaces(w.row.value.appliedSteps);
    }
  }

  /** Reopened with the same request after the cut, the run ends as r, left alone, would have ended. */
  ghost predicate EndsTheSame(w: World, r: Run, cut: World, env: Env)
    requires InRange(r) && cut.row.Some? && InRange(Load(cut.row.value, r.req))
  {
    var ((v, x), (u, y)) := (Finish(w, r, env), Finish(cut, Load(cut.row.value, r.req), env));
    v == u && SameEnd(x, y)
  }

  /** A run cut off at any await and reopened with the same request ends as if it had been left alone: same steps,
      results, target, failure and state, same saved row, same gateway, same effects; except exactly when the saved row
      already shows a possible match of that run, which the reopened run walks past. */
  lemma CrashThenResume(w: World, r: Run, env: Env, k: nat)
    requires Consistent(w, r, env)
    ensures InRange(r)
    ensures var cut := Steps(w, r, env, k).0;
      && cut.row.Some? && InRange(Load(cut.row.value, r.req))
      && (Binds(r.req.confirmation, r.req.intakeRevisionId, cut.row.value) ==>
            (EndsTheSame(w, r, cut, env) <==> !FoundPossible(r, cut.row.value)))
  {
    StepsConsistent(w, r, env, k);
    StepsKeepRequest(w, r, env, k);
    FinishFrom(w, r, env, k);
    var (cut, stopped) := Steps(w, r, env, k);
    FoundPossibleIsReview(cut, stopped, env);
    if Binds(r.req.confirmation, r.req.intakeRevisionId, cut.row.value) {
      if InReview(stopped) {
        ReloadPastReview(cut, stopped, env);
      } else {
        ReloadAlike(cut, stopped, env);
      }
    }
  }
}
