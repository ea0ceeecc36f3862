/** Intake runs: each await is a point where the process may stop or another run may move. */
module IntakeRuns {
  import opened Ordering
  import opened CanonicalJson
  import opened MockGateways
  import opened IntakeSteps

  datatype FinalState = Completed | Failed | Partial | ReviewPending

  datatype RowState = Running | Final(state: FinalState)

  datatype PartialFailure = PartialFailure(failedStep: StepName, code: FailureCode, retryable: bool)

  /** The saved checkpoint of one organization and revision. */
  datatype Row = Row(
    draftDigest: Digest,
    target: Target,
    currentStep: Option<StepName>,
    state: RowState,
    appliedSteps: seq<StepName>,
    stepResults: map<StepName, StepResult>,
    lastError: Option<PartialFailure>)

  datatype World = World(row: Option<Row>, gateway: Gateway)

  /** Where a run stands. Between two phases lies exactly one await. */
  datatype Phase =
    | Head(next: nat)
    | Marked(at: nat)
    | Executed(at: nat)
    | Ending(terminal: FinalState)
    | Done(outcome: FinalState)
    | Threw

  /** A run's own variables, and what it has sent to the gateway so far. */
  datatype Run = Run(
    req: IntakeRequest,
    loaded: seq<StepName>,
    applied: seq<StepName>,
    results: map<StepName, StepResult>,
    target: Target,
    failure: Option<PartialFailure>,
    acted: bool,
    sent: seq<StepName>,
    phase: Phase)

  // ---------------------------------------------------------------- admission

  datatype Rejection = IdempotencyMismatch | InvalidRequest

  datatype Admission = Admitted(run: Run) | Rejected(why: Rejection)

  datatype Entry = ByRun | ByResume

  /** The confirmation still binds the saved row. */
  predicate Binds(c: Confirmation, revisionId: Text, row: Row) {
    c.draftRevisionId == revisionId && c.draftDigest == row.draftDigest
    && Target(c.canonicalId, c.canonicalVersion) == row.target
  }

  function FreshRow(req: IntakeRequest): Row {
    Row(req.draftDigest, Target(req.confirmation.canonicalId, req.confirmation.canonicalVersion), Some(ConfirmValidate),
        Running, [], map[], None)
  }

  /** The saved target, with the confirmed one standing in for what was never saved. */
  function EffectiveTarget(row: Row, req: IntakeRequest): Target {
    Target(if row.target.id.Some? then row.target.id else req.confirmation.canonicalId,
           if row.target.version.Some? then row.target.version else req.confirmation.canonicalVersion)
  }

  function Load(row: Row, req: IntakeRequest): Run {
    Run(req, row.appliedSteps, row.appliedSteps, row.stepResults, EffectiveTarget(row, req), None, false, [], Head(0))
  }

  function Open(row: Row, req: IntakeRequest): Admission {
    if Binds(req.confirmation, req.intakeRevisionId, row) then Admitted(Load(row, req)) else Rejected(InvalidRequest)
  }

  /** run and resumeWithPayload up to the loop over the steps. */
  function Admit(w: World, req: IntakeRequest, entry: Entry): (World, Admission) {
    if req.draftDigest != DigestOf(DraftOf(req)) then (w, Rejected(IdempotencyMismatch))
    else if req.confirmation.draftDigest != DigestOf(DraftOf(req)) then (w, Rejected(InvalidRequest))
    else if req.organizationId == [] || req.intakeRevisionId == [] then (w, Rejected(InvalidRequest))
    else
      match w.row
      case None =>
        if entry.ByRun? then (w.(row := Some(FreshRow(req))), Open(FreshRow(req), req)) else (w, Rejected(InvalidRequest))
      case Some(row) =>
        if row.draftDigest != req.draftDigest then (w, Rejected(IdempotencyMismatch)) else (w, Open(row, req))
  }

  // ---------------------------------------------------------------- one step of a run

  /** The first step from index i on that was not applied when the run loaded. */
  function NextStep(loaded: seq<StepName>, i: nat): (n: nat)
    requires i <= |STEP_ORDER|
    ensures i <= n <= |STEP_ORDER|
    decreases |STEP_ORDER| - i
  {
    if i < |STEP_ORDER| && STEP_ORDER[i] in loaded then NextStep(loaded, i + 1) else i
  }

  /** The write before a step: it neither clears nor sets the target. */
  function MarkRow(row: Row, r: Run, step: StepName): Row {
    Row(row.draftDigest, row.target, Some(step), Running, r.applied, r.results, None)
  }

  function SavedTarget(row: Row, r: Run): Target {
    Target(if r.target.id.Some? then r.target.id else row.target.id,
           if r.target.version.Some? then r.target.version else row.target.version)
  }

  function CommitRow(row: Row, r: Run, step: StepName): Row {
    Row(row.draftDigest, SavedTarget(row, r), Some(step), Running, r.applied, r.results, None)
  }

  function FinalRow(row: Row, r: Run, terminal: FinalState): Row {
    Row(row.draftDigest, SavedTarget(row, r), if r.failure.Some? then Some(r.failure.value.failedStep) else None,
        Final(terminal), r.applied, r.results, r.failure)
  }

  predicate StoppedForReview(step: StepName, results: map<StepName, StepResult>) {
    step.Identity? && Identity in results && results[Identity].IdentityResult? && results[Identity].kind.PossibleMatch?
  }

  function Record(results: map<StepName, StepResult>, step: StepName, result: StepResult): map<StepName, StepResult> {
    if step.ConfirmValidate? then results else results[step := result]
  }

  function Absorb(r: Run, step: StepName, at: nat, result: StepResult): Run {
    r.(applied := r.applied + [step],
       results := Record(r.results, step, result),
       target := Retarget(r.target, result),
       acted := true,
       phase := Executed(at))
  }

  function Fail(r: Run, failure: PartialFailure): Run {
    r.(failure := Some(failure), phase := Ending(if r.loaded != [] || r.applied != [] then Partial else FinalState.Failed))
  }

  /** The gateway call of a step, together with everything up to the next await. */
  function Execute(w: World, r: Run, at: nat, env: Env): (World, Run)
    requires at < |STEP_ORDER|
  {
    var step := STEP_ORDER[at];
    var (gateway, outcome) := Perform(step, r.req, r.target, w.gateway, env);
    var sent := if Calls(step, r.target) then r.sent + [step] else r.sent;
    match outcome
    case Success(result) => (w.(gateway := gateway), Absorb(r, step, at, result).(sent := sent))
    case Failure(code, retryable) =>
      (w.(gateway := gateway), Fail(r, PartialFailure(step, code, retryable)).(sent := sent))
  }

  predicate ThrownRetryable(code: ErrorCode) {
    code.DependencyUnavailable? || code.RateLimited?
  }

  /** The caller gets an error of its own instead of a reply, whether or not the gateway took the call. */
  function LoseReply(w: World, r: Run, at: nat, env: Env, code: ErrorCode, sent: bool): (World, Run)
    requires at < |STEP_ORDER|
  {
    var step := STEP_ORDER[at];
    if !Calls(step, r.target) then Execute(w, r, at, env)
    else
      var failure := PartialFailure(step, Contract(code), ThrownRetryable(code));
      if sent then
        (w.(gateway := Perform(step, r.req, r.target, w.gateway, env).0), Fail(r, failure).(sent := r.sent + [step]))
      else
        (w, Fail(r, failure))
  }

  /** The last write of a run. */
  function Persist(w: World, r: Run, terminal: FinalState, saved: bool): (World, Run) {
    if !saved || w.row.None? then (w, r.(phase := Threw))
    else (w.(row := Some(FinalRow(w.row.value, r, terminal))), r.(phase := Done(terminal)))
  }

  function Begin(w: World, r: Run, at: nat, saved: bool): (World, Run)
    requires at < |STEP_ORDER|
  {
    if !saved || w.row.None? then (w, r.(phase := Threw))
    else (w.(row := Some(MarkRow(w.row.value, r, STEP_ORDER[at]))), r.(phase := Marked(at)))
  }

  /** A failing write after a step is caught and ends the run, the step already counted. */
  function Commit(w: World, r: Run, at: nat, saved: bool): (World, Run)
    requires at < |STEP_ORDER|
  {
    var step := STEP_ORDER[at];
    if !saved || w.row.None? then (w, Fail(r, PartialFailure(step, TransactionFailed, false)))
    else
      (w.(row := Some(CommitRow(w.row.value, r, step))),
       r.(phase := if StoppedForReview(step, r.results) then Ending(ReviewPending) else Head(at + 1)))
  }

  /** Where the phase indexes lie. */
  predicate InRange(r: Run) {
    match r.phase
    case Head(n) => n <= |STEP_ORDER|
    case Marked(at) => at < |STEP_ORDER|
    case Executed(at) => at < |STEP_ORDER|
    case _ => true
  }

  /** From one await to the next; `saved` tells whether the store took the write, if there is one. */
  function Advance(w: World, r: Run, env: Env, saved: bool): (s: (World, Run))
    requires InRange(r)
    ensures InRange(s.1)
  {
    match r.phase
    case Head(n) =>
      var at := NextStep(r.loaded, n);
      if at == |STEP_ORDER| then Persist(w, r, Completed, saved) else Begin(w, r, at, saved)
    case Marked(at) => Execute(w, r, at, env)
    case Executed(at) => Commit(w, r, at, saved)
    case Ending(terminal) => Persist(w, r, terminal, saved)
    case _ => (w, r)
  }

  /** The run moves no more. */
  predicate Over(r: Run) {
    r.phase.Done? || r.phase.Threw?
  }

  // ---------------------------------------------------------------- shape

  ghost predicate Prefix(steps: seq<StepName>) {
    steps <= STEP_ORDER
  }

  /** Every applied step but the first has a result, and nothing else has. */
  ghost predicate ResultsOf(applied: seq<StepName>, results: map<StepName, StepResult>) {
    forall s :: s in results <==> s in applied && !s.ConfirmValidate?
  }

  ghost predicate RowShape(row: Row) {
    && Prefix(row.appliedSteps) && ResultsOf(row.appliedSteps, row.stepResults) && HexDigest(row.draftDigest)
    && match row.state
       case Running => true
       case Final(s) => TerminalShape(s, row.appliedSteps, row.stepResults, row.lastError)
  }

  /** IDENTITY told of a possible match only. */
  predicate ShowsPossible(results: map<StepName, StepResult>) {
    Identity in results && results[Identity].IdentityResult? && results[Identity].kind == PossibleMatch
  }

  /** What each final state says about the steps applied. */
  ghost predicate TerminalShape(
      s: FinalState, applied: seq<StepName>, results: map<StepName, StepResult>, error: Option<PartialFailure>) {
    match s
    case Completed => applied == STEP_ORDER && error == None
    case Partial => applied != [] && error.Some? && FailsAt(error.value, applied)
    case ReviewPending => |applied| == 2 && error == None && ShowsPossible(results)
    case Failed => false
  }

  /** The failure is the next step's own, or the write after the last applied step went wrong. */
  ghost predicate FailsAt(f: PartialFailure, applied: seq<StepName>) {
    || (|applied| < |STEP_ORDER| && f.failedStep == STEP_ORDER[|applied|])
    || (applied != [] && f.failedStep == applied[|applied| - 1] && f.code == TransactionFailed)
  }

  ghost predicate Shape(r: Run) {
    && Prefix(r.loaded) && Prefix(r.applied) && |r.loaded| <= |r.applied| && ResultsOf(r.applied, r.results)
    && HexDigest(r.req.draftDigest)
    && match r.phase
       case Head(n) => (n == |r.applied| || (n == 0 && |r.loaded| == |r.applied|)) && r.failure == None
       case Marked(at) => at == |r.applied| < |STEP_ORDER| && r.failure == None
       case Executed(at) => at + 1 == |r.applied| && |r.loaded| <= at && r.failure == None
       case Ending(t) => TerminalShape(t, r.applied, r.results, r.failure) && (t.ReviewPending? ==> |r.loaded| < 2)
       case Done(t) => TerminalShape(t, r.applied, r.results, r.failure) && (t.ReviewPending? ==> |r.loaded| < 2)
       case Threw => true
  }

  lemma NextIsFirstUnapplied(loaded: seq<StepName>, i: nat)
    requires Prefix(loaded) && i <= |STEP_ORDER|
    ensures NextStep(loaded, i) == if i < |loaded| then |loaded| else i
    decreases |STEP_ORDER| - i
  {
    StepPlaces(loaded);
    if i < |STEP_ORDER| && STEP_ORDER[i] in loaded {
      NextIsFirstUnapplied(loaded, i + 1);
    }
  }

  /** A prefix holds exactly the steps up to its length. */
  lemma StepPlaces(steps: seq<StepName>)
    requires Prefix(steps)
    ensures forall i :: 0 <= i < |STEP_ORDER| ==> (STEP_ORDER[i] in steps <==> i < |steps|)
  {
    assert forall i :: 0 <= i < |steps| ==> steps[i] == STEP_ORDER[i];
  }

  lemma PrefixGrows(steps: seq<StepName>)
    requires Prefix(steps) && |steps| < |STEP_ORDER|
    ensures Prefix(steps + [STEP_ORDER[|steps|]])
  {
  }

  lemma ExecuteShape(w: World, r: Run, at: nat, env: Env)
    requires Shape(r) && r.phase == Marked(at)
    ensures Shape(Execute(w, r, at, env).1)
  {
    var step := STEP_ORDER[at];
    match Perform(step, r.req, r.target, w.gateway, env).1 {
      case Success(result) =>
        PrefixGrows(r.applied);
        var after := r.applied + [step];
        assert forall s :: s in after <==> s in r.applied || s == step;
      case Failure(_, _) =>
    }
  }

  lemma CommitShape(w: World, r: Run, at: nat, saved: bool)
    requires Shape(r) && r.phase == Executed(at)
    ensures Shape(Commit(w, r, at, saved).1)
  {
    StepPlaces(r.applied);
  }

  lemma BeginShape(w: World, r: Run, saved: bool)
    requires Shape(r) && r.phase.Head? && |r.applied| < |STEP_ORDER|
    ensures Shape(Begin(w, r, |r.applied|, saved).1)
  {
  }

  lemma CompletedShape(w: World, r: Run, saved: bool)
    requires Shape(r) && r.phase.Head? && |r.applied| == |STEP_ORDER|
    ensures Shape(Persist(w, r, Completed, saved).1)
  {
  }

  lemma HeadShape(w: World, r: Run, env: Env, n: nat, saved: bool)
    requires Shape(r) && r.phase == Head(n)
    ensures InRange(r) && Shape(Advance(w, r, env, saved).1)
  {
    NextIsFirstUnapplied(r.loaded, n);
    if |r.applied| < |STEP_ORDER| {
      BeginShape(w, r, saved);
    } else {
      CompletedShape(w, r, saved);
    }
  }

  lemma AdvanceShape(w: World, r: Run, env: Env, saved: bool)
    requires Shape(r)
    ensures InRange(r) && Shape(Advance(w, r, env, saved).1)
  {
    match r.phase {
      case Head(n) => HeadShape(w, r, env, n, saved);
      case Marked(at) => ExecuteShape(w, r, at, env);
      case Executed(at) => CommitShape(w, r, at, saved);
      case _ =>
    }
  }

  lemma LoseShape(w: World, r: Run, at: nat, env: Env, code: ErrorCode, sent: bool)
    requires Shape(r) && r.phase == Marked(at) && Calls(STEP_ORDER[at], r.target)
    ensures Shape(LoseReply(w, r, at, env, code, sent).1)
  {
  }

  ghost predicate WorldShape(w: World) {
    w.row.Some? ==> RowShape(w.row.value)
  }

  lemma AdvanceWorldShape(w: World, r: Run, env: Env, saved: bool)
    requires WorldShape(w) && Shape(r) && InRange(r)
    ensures WorldShape(Advance(w, r, env, saved).0)
  {
    match r.phase {
      case Head(n) => NextIsFirstUnapplied(r.loaded, n);
      case _ =>
    }
  }
}
