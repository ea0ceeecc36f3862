/** Any number of runs, resumes, crashes and other calls on one revision, interleaved at every await. */
module IntakeInterleaving {
  import opened Ordering
  import opened CanonicalJson
  import opened MockGateways
  import opened IntakeSteps
  import opened IntakeRuns

  datatype Event =
    | Enter(req: IntakeRequest, entry: Entry)
    | Move(run: nat, env: Env, saved: bool)
    | Lose(run: nat, env: Env, code: ErrorCode, sent: bool)
    | Stop(run: nat)
    | Outside(fixture: Fixture<Data>, clock: int, request: Request<Payload>)

  /** The world of one organization and revision, and every run ever let in. */
  datatype System = System(org: Text, revision: Text, world: World, runs: seq<Run>)

  /** What an event makes of one run. A stopped run never moves again. */
  function MoveRun(w: World, r: Run, e: Event): (World, Run)
    requires InRange(r) && (e.Move? || e.Lose? || e.Stop?)
  {
    match e
    case Move(_, env, saved) => Advance(w, r, env, saved)
    case Lose(_, env, code, sent) => if r.phase.Marked? then LoseReply(w, r, r.phase.at, env, code, sent) else (w, r)
    case Stop(_) => (w, r.(phase := Threw))
  }

  ghost predicate AllInRange(s: System) {
    forall i :: 0 <= i < |s.runs| ==> InRange(s.runs[i])
  }

  function Next(s: System, e: Event): System
    requires AllInRange(s)
  {
    match e
    case Enter(req, entry) =>
      if req.organizationId != s.org || req.intakeRevisionId != s.revision then s
      else
        var (w, a) := Admit(s.world, req, entry);
        s.(world := w, runs := if a.Admitted? then s.runs + [a.run] else s.runs)
    case Outside(f, clock, req) => s.(world := s.world.(gateway := Decide(s.world.gateway, f, clock, req).0))
    case _ =>
      if e.run >= |s.runs| then s
      else var (w, r) := MoveRun(s.world, s.runs[e.run], e); s.(world := w, runs := s.runs[e.run := r])
  }

  // ---------------------------------------------------------------- what always holds

  /** What is recorded for a step is what its cached reply says, and the step has its effect. */
  ghost predicate Backed(g: Gateway, org: Text, rev: Text, step: StepName, results: map<StepName, StepResult>) {
    step.ConfirmValidate? ||
    (var key := StepCacheKey(org, rev, step);
     step in results && key in g.cache && Interpret(g.cache[key].digest, g.cache[key].reply) == Success(results[step]))
  }

  ghost predicate Recorded(
      g: Gateway, org: Text, rev: Text, applied: seq<StepName>, results: map<StepName, StepResult>) {
    forall s :: s in applied ==> Backed(g, org, rev, s, results)
  }

  function Place(step: StepName): nat {
    match step
    case ConfirmValidate => 0
    case Identity => 1
    case Profile => 2
    case Case => 3
    case Availability => 4
  }

  ghost predicate Within(sent: seq<StepName>, low: nat, high: nat) {
    forall i :: 0 <= i < |sent| ==> low <= Place(sent[i]) < high
  }

  ghost predicate Ascending(sent: seq<StepName>) {
    forall i, j :: 0 <= i < j < |sent| ==> Place(sent[i]) < Place(sent[j])
  }

  /** A run has sent only steps that were not applied when it loaded, none twice, none ahead of its turn. */
  ghost predicate SentOnce(r: Run) {
    Ascending(r.sent) && Within(r.sent, |r.loaded|, |r.applied| + if NothingFailed(r.phase) then 0 else 1)
  }

  lemma SendNext(sent: seq<StepName>, low: nat, step: StepName)
    requires Ascending(sent) && Within(sent, low, Place(step)) && low <= Place(step)
    ensures Ascending(sent + [step]) && Within(sent + [step], low, Place(step) + 1)
  {
  }

  predicate NothingFailed(p: Phase) {
    p.Head? || p.Marked? || p.Executed? || p == Ending(ReviewPending) || p == Done(ReviewPending)
  }

  ghost predicate RunHealthy(g: Gateway, org: Text, rev: Text, r: Run) {
    Shape(r) && SentOnce(r) && r.req.organizationId == org && r.req.intakeRevisionId == rev
    && Recorded(g, org, rev, r.applied, r.results)
  }

  ghost predicate RowHealthy(g: Gateway, org: Text, rev: Text, row: Row) {
    RowShape(row) && Recorded(g, org, rev, row.appliedSteps, row.stepResults)
  }

  ghost predicate WorldHealthy(org: Text, rev: Text, w: World) {
    Sound(w.gateway) && (w.row.Some? ==> RowHealthy(w.gateway, org, rev, w.row.value))
  }

  ghost predicate Healthy(s: System) {
    && WorldHealthy(s.org, s.revision, s.world)
    && forall i :: 0 <= i < |s.runs| ==> RunHealthy(s.world.gateway, s.org, s.revision, s.runs[i])
  }

  // ---------------------------------------------------------------- the cache only grows

  ghost predicate Extends(g: Gateway, h: Gateway) {
    forall k :: k in g.cache ==> k in h.cache && h.cache[k] == g.cache[k]
  }

  lemma CallExtends(g: Gateway, f: Fixture<Data>, clock: int, call: Request<Payload>)
    requires Sound(g)
    ensures var h := Decide(g, f, clock, call).0; Extends(g, h) && Sound(h)
  {
    DecideSound(g, f, clock, call);
  }

  lemma PerformExtends(step: StepName, req: IntakeRequest, target: Target, g: Gateway, env: Env)
    requires Sound(g)
    ensures Extends(g, Perform(step, req, target, g, env).0) && Sound(Perform(step, req, target, g, env).0)
  {
    if Calls(step, target) {
      CallExtends(g, FixtureFor(env, step), env.clock, StepRequest(step, req, target, env.collectedAt));
    }
  }

  /** A step that succeeds is backed by the gateway's cache. */
  lemma SuccessBacked(step: StepName, req: IntakeRequest, target: Target, g: Gateway, env: Env)
    requires Perform(step, req, target, g, env).1.Success? && !step.ConfirmValidate?
    ensures var (h, outcome) := Perform(step, req, target, g, env);
      var key := StepCacheKey(req.organizationId, req.intakeRevisionId, step);
      key in h.cache && Interpret(h.cache[key].digest, h.cache[key].reply) == outcome
  {
    DecideCaches(g, FixtureFor(env, step), env.clock, StepRequest(step, req, target, env.collectedAt));
  }

  lemma RecordedExtends(g: Gateway, h: Gateway, org: Text, rev: Text, applied: seq<StepName>, results: map<StepName, StepResult>)
    requires Extends(g, h) && Recorded(g, org, rev, applied, results)
    ensures Recorded(h, org, rev, applied, results)
  {
    forall s | s in applied
      ensures Backed(h, org, rev, s, results)
    {
      assert Backed(g, org, rev, s, results);
    }
  }

  // ---------------------------------------------------------------- one event keeps it

  /** What a stretch of one run must keep, for the world and for itself. */
  ghost predicate Kept(org: Text, rev: Text, w: World, v: World, q: Run) {
    Extends(w.gateway, v.gateway) && WorldHealthy(org, rev, v) && RunHealthy(v.gateway, org, rev, q)
  }

  lemma GatewayMoved(org: Text, rev: Text, w: World, g: Gateway)
    requires WorldHealthy(org, rev, w) && Extends(w.gateway, g) && Sound(g)
    ensures WorldHealthy(org, rev, w.(gateway := g))
  {
    if w.row.Some? {
      RecordedExtends(w.gateway, g, org, rev, w.row.value.appliedSteps, w.row.value.stepResults);
    }
  }

  lemma SuccessRecorded(org: Text, rev: Text, w: World, r: Run, at: nat, env: Env)
    requires RunHealthy(w.gateway, org, rev, r) && r.phase == Marked(at) && Sound(w.gateway)
    requires Perform(STEP_ORDER[at], r.req, r.target, w.gateway, env).1.Success?
    ensures var (g, outcome) := Perform(STEP_ORDER[at], r.req, r.target, w.gateway, env);
      Recorded(g, org, rev, r.applied + [STEP_ORDER[at]], Record(r.results, STEP_ORDER[at], outcome.result))
  {
    var step := STEP_ORDER[at];
    var (g, outcome) := Perform(step, r.req, r.target, w.gateway, env);
    PerformExtends(step, r.req, r.target, w.gateway, env);
    RecordedExtends(w.gateway, g, org, rev, r.applied, r.results);
    if !step.ConfirmValidate? {
      SuccessBacked(step, r.req, r.target, w.gateway, env);
    }
    var results := Record(r.results, step, outcome.result);
    forall s | s in r.applied + [step]
      ensures Backed(g, org, rev, s, results)
    {
      if s != step {
        assert Backed(g, org, rev, s, r.results);
      }
    }
  }

  lemma ExecuteSends(w: World, r: Run, at: nat, env: Env)
    requires Shape(r) && r.phase == Marked(at)
    ensures var step := STEP_ORDER[at]; var q := Execute(w, r, at, env).1;
      && Place(step) == at && q.sent == (if Calls(step, r.target) then r.sent + [step] else r.sent)
      && q.loaded == r.loaded && |q.applied| + (if NothingFailed(q.phase) then 0 else 1) == at + 1
  {
  }

  lemma ExecuteSent(w: World, r: Run, at: nat, env: Env)
    requires Shape(r) && SentOnce(r) && r.phase == Marked(at)
    ensures SentOnce(Execute(w, r, at, env).1)
  {
    SendNext(r.sent, |r.loaded|, STEP_ORDER[at]);
    ExecuteSends(w, r, at, env);
  }

  lemma ExecuteKept(org: Text, rev: Text, w: World, r: Run, at: nat, env: Env)
    requires WorldHealthy(org, rev, w) && RunHealthy(w.gateway, org, rev, r) && r.phase == Marked(at)
    ensures var (v, q) := Execute(w, r, at, env); Kept(org, rev, w, v, q)
  {
    var step := STEP_ORDER[at];
    var (g, outcome) := Perform(step, r.req, r.target, w.gateway, env);
    PerformExtends(step, r.req, r.target, w.gateway, env);
    GatewayMoved(org, rev, w, g);
    ExecuteShape(w, r, at, env);
    ExecuteSent(w, r, at, env);
    if outcome.Success? {
      SuccessRecorded(org, rev, w, r, at, env);
    } else {
      RecordedExtends(w.gateway, g, org, rev, r.applied, r.results);
    }
  }

  lemma LoseFields(w: World, r: Run, at: nat, env: Env, code: ErrorCode, sent: bool)
    requires at < |STEP_ORDER| && Calls(STEP_ORDER[at], r.target)
    ensures var q := LoseReply(w, r, at, env, code, sent).1;
      && q.loaded == r.loaded && q.applied == r.applied && q.phase.Ending? && !q.phase.terminal.ReviewPending?
      && q.sent == if sent then r.sent + [STEP_ORDER[at]] else r.sent
  {
  }

  lemma LoseSent(r: Run, q: Run, at: nat, sent: bool)
    requires Shape(r) && SentOnce(r) && r.phase == Marked(at)
    requires q.loaded == r.loaded && q.applied == r.applied && q.phase.Ending? && !q.phase.terminal.ReviewPending?
    requires q.sent == if sent then r.sent + [STEP_ORDER[at]] else r.sent
    ensures SentOnce(q)
  {
    SentThrough(r.sent, |r.loaded|, at, STEP_ORDER[at], sent);
  }

  lemma SentThrough(steps: seq<StepName>, low: nat, at: nat, step: StepName, sent: bool)
    requires Place(step) == at && low <= at && Ascending(steps) && Within(steps, low, at)
    ensures var after := if sent then steps + [step] else steps; Ascending(after) && Within(after, low, at + 1)
  {
    SendNext(steps, low, step);
  }

  lemma LoseKept(org: Text, rev: Text, w: World, r: Run, at: nat, env: Env, code: ErrorCode, sent: bool)
    requires WorldHealthy(org, rev, w) && RunHealthy(w.gateway, org, rev, r) && r.phase == Marked(at)
    ensures var (v, q) := LoseReply(w, r, at, env, code, sent); Kept(org, rev, w, v, q)
  {
    var step := STEP_ORDER[at];
    if !Calls(step, r.target) {
      ExecuteKept(org, rev, w, r, at, env);
    } else {
      LoseShape(w, r, at, env, code, sent);
      LoseFields(w, r, at, env, code, sent);
      LoseSent(r, LoseReply(w, r, at, env, code, sent).1, at, sent);
      var g := Perform(step, r.req, r.target, w.gateway, env).0;
      PerformExtends(step, r.req, r.target, w.gateway, env);
      GatewayMoved(org, rev, w, g);
      RecordedExtends(w.gateway, g, org, rev, r.applied, r.results);
    }
  }

  lemma WriteSendsNothing(w: World, r: Run, env: Env, saved: bool)
    requires InRange(r) && !r.phase.Marked?
    ensures var (v, q) := Advance(w, r, env, saved);
      && q.sent == r.sent && q.loaded == r.loaded && q.applied == r.applied && q.results == r.results && q.req == r.req
      && (NothingFailed(q.phase) ==> NothingFailed(r.phase)) && v.gateway == w.gateway
  {
  }

  lemma RowWritten(w: World, r: Run, env: Env, saved: bool)
    requires InRange(r) && !r.phase.Marked?
    ensures var v := Advance(w, r, env, saved).0;
      && (v.row.Some? ==> w.row.Some?)
      && (v.row == w.row || (v.row.Some? && v.row.value.appliedSteps == r.applied && v.row.value.stepResults == r.results))
  {
  }

  lemma WriteKept(org: Text, rev: Text, w: World, r: Run, env: Env, saved: bool)
    requires WorldHealthy(org, rev, w) && RunHealthy(w.gateway, org, rev, r) && !r.phase.Marked?
    ensures InRange(r) && var (v, q) := Advance(w, r, env, saved); Kept(org, rev, w, v, q)
  {
    AdvanceShape(w, r, env, saved);
    AdvanceWorldShape(w, r, env, saved);
    WriteSendsNothing(w, r, env, saved);
    RowWritten(w, r, env, saved);
  }

  lemma AdvanceKept(org: Text, rev: Text, w: World, r: Run, env: Env, saved: bool)
    requires WorldHealthy(org, rev, w) && RunHealthy(w.gateway, org, rev, r)
    ensures InRange(r) && var (v, q) := Advance(w, r, env, saved); Kept(org, rev, w, v, q)
  {
    if r.phase.Marked? {
      ExecuteKept(org, rev, w, r, r.phase.at, env);
    } else {
      WriteKept(org, rev, w, r, env, saved);
    }
  }

  lemma StopKept(org: Text, rev: Text, w: World, r: Run)
    requires WorldHealthy(org, rev, w) && RunHealthy(w.gateway, org, rev, r)
    ensures Kept(org, rev, w, w, r) && Kept(org, rev, w, w, r.(phase := Threw))
  {
  }

  lemma MoveKept(org: Text, rev: Text, w: World, r: Run, e: Event)
    requires WorldHealthy(org, rev, w) && RunHealthy(w.gateway, org, rev, r) && (e.Move? || e.Lose? || e.Stop?)
    ensures InRange(r) && var (v, q) := MoveRun(w, r, e); Kept(org, rev, w, v, q)
  {
    match e {
      case Move(_, env, saved) => AdvanceKept(org, rev, w, r, env, saved);
      case Lose(_, env, code, sent) =>
        if r.phase.Marked? {
          LoseKept(org, rev, w, r, r.phase.at, env, code, sent);
        } else {
          StopKept(org, rev, w, r);
        }
      case Stop(_) => StopKept(org, rev, w, r);
    }
  }

  lemma OthersKept(org: Text, rev: Text, g: Gateway, h: Gateway, r: Run)
    requires RunHealthy(g, org, rev, r) && Extends(g, h)
    ensures RunHealthy(h, org, rev, r)
  {
    RecordedExtends(g, h, org, rev, r.applied, r.results);
  }

  lemma EnterKept(s: System, req: IntakeRequest, entry: Entry)
    requires WorldHealthy(s.org, s.revision, s.world)
    requires req.organizationId == s.org && req.intakeRevisionId == s.revision
    ensures var (w, a) := Admit(s.world, req, entry);
      && w.gateway == s.world.gateway && WorldHealthy(s.org, s.revision, w)
      && (a.Admitted? ==> RunHealthy(w.gateway, s.org, s.revision, a.run))
  {
  }

  lemma AllInRangeHealthy(s: System)
    requires Healthy(s)
    ensures AllInRange(s)
  {
  }

  /** All runs stay healthy when the gateway's cache grows and at most one of them moves. */
  lemma RunsKept(s: System, g: Gateway)
    requires Healthy(s) && Extends(s.world.gateway, g)
    ensures forall i :: 0 <= i < |s.runs| ==> RunHealthy(g, s.org, s.revision, s.runs[i])
  {
    forall i | 0 <= i < |s.runs| {
      OthersKept(s.org, s.revision, s.world.gateway, g, s.runs[i]);
    }
  }

  lemma MovedHealthy(s: System, e: Event)
    requires Healthy(s) && (e.Move? || e.Lose? || e.Stop?) && e.run < |s.runs|
    ensures AllInRange(s) && Healthy(Next(s, e))
  {
    AllInRangeHealthy(s);
    MoveKept(s.org, s.revision, s.world, s.runs[e.run], e);
    RunsKept(s, MoveRun(s.world, s.runs[e.run], e).0.gateway);
  }

  lemma OutsideHealthy(s: System, e: Event)
    requires Healthy(s) && e.Outside?
    ensures AllInRange(s) && Healthy(Next(s, e))
  {
    AllInRangeHealthy(s);
    CallExtends(s.world.gateway, e.fixture, e.clock, e.request);
    var g := Decide(s.world.gateway, e.fixture, e.clock, e.request).0;
    GatewayMoved(s.org, s.revision, s.world, g);
    RunsKept(s, g);
  }

  lemma EnterHealthy(s: System, e: Event)
    requires Healthy(s) && e.Enter?
    ensures AllInRange(s) && Healthy(Next(s, e))
  {
    AllInRangeHealthy(s);
    if e.req.organizationId == s.org && e.req.intakeRevisionId == s.revision {
      EnterKept(s, e.req, e.entry);
    }
  }

  /** Whatever happens next, a healthy system stays healthy. */
  lemma NextHealthy(s: System, e: Event)
    requires Healthy(s)
    ensures AllInRange(s) && Healthy(Next(s, e))
  {
    AllInRangeHealthy(s);
    match e {
      case Enter(_, _) => EnterHealthy(s, e);
      case Outside(_, _, _) => OutsideHealthy(s, e);
      case _ =>
        if e.run < |s.runs| {
          MovedHealthy(s, e);
        }
    }
  }

  function Played(s: System, events: seq<Event>): System
    requires Healthy(s)
    ensures Healthy(Played(s, events))
    decreases |events|
  {
    if events == [] then s
    else
      NextHealthy(s, events[0]);
      Played(Next(s, events[0]), events[1..])
  }

  lemma StartHealthy(org: Text, rev: Text, g: Gateway)
    requires Sound(g)
    ensures Healthy(System(org, rev, World(None, g), []))
  {
  }

  // ---------------------------------------------------------------- the theorems

  /** Some run, or the saved row, counts the step as applied. */
  ghost predicate AppliedSomewhere(s: System, step: StepName) {
    (s.world.row.Some? && step in s.world.row.value.appliedSteps)
    || exists i :: 0 <= i < |s.runs| && step in s.runs[i].applied
  }

  /** Over any interleaving of runs, resumes, crashes, failing writes, lost replies and other calls, the gateway applies
      each step of the revision at most once, and exactly once if anybody counts it as applied. */
  lemma OneEffectPerStep(s: System, events: seq<Event>, step: StepName)
    requires Healthy(s) && !step.ConfirmValidate?
    ensures var t := Played(s, events);
      var count := EffectCount(t.world.gateway.effects, StepCacheKey(t.org, t.revision, step));
      count <= 1 && (AppliedSomewhere(t, step) ==> count == 1)
  {
    var t := Played(s, events);
    var g := t.world.gateway;
    if t.world.row.Some? && step in t.world.row.value.appliedSteps {
      assert Backed(g, t.org, t.revision, step, t.world.row.value.stepResults);
    } else if AppliedSomewhere(t, step) {
      var i :| 0 <= i < |t.runs| && step in t.runs[i].applied;
      assert RunHealthy(g, t.org, t.revision, t.runs[i]);
      assert Backed(g, t.org, t.revision, step, t.runs[i].results);
    }
  }

  /** A run never sends a step that was applied when it loaded, and none twice. */
  lemma NeverSentAgain(s: System, events: seq<Event>, i: nat)
    requires Healthy(s) && i < |Played(s, events).runs|
    ensures var r := Played(s, events).runs[i];
      && (forall j :: 0 <= j < |r.sent| ==> r.sent[j] !in r.loaded)
      && (forall j, k :: 0 <= j < k < |r.sent| ==> r.sent[j] != r.sent[k])
  {
    var t := Played(s, events);
    assert RunHealthy(t.world.gateway, t.org, t.revision, t.runs[i]);
    SentApart(t.runs[i]);
  }

  lemma SentApart(r: Run)
    requires Shape(r) && SentOnce(r)
    ensures forall j :: 0 <= j < |r.sent| ==> r.sent[j] !in r.loaded
    ensures forall j, k :: 0 <= j < k < |r.sent| ==> r.sent[j] != r.sent[k]
  {
    forall j | 0 <= j < |r.sent|
      ensures r.sent[j] !in r.loaded
    {
      StepPlaces(r.loaded);
      assert STEP_ORDER[Place(r.sent[j])] == r.sent[j];
    }
  }

  /** The saved progress is always a prefix of the step order, and so is every run's own. */
  lemma ProgressIsPrefix(s: System, events: seq<Event>)
    requires Healthy(s)
    ensures var t := Played(s, events);
      && (t.world.row.Some? ==> t.world.row.value.appliedSteps <= STEP_ORDER)
      && (forall i :: 0 <= i < |t.runs| ==> t.runs[i].applied <= STEP_ORDER && t.runs[i].loaded <= t.runs[i].applied)
  {
    var t := Played(s, events);
    forall i | 0 <= i < |t.runs|
      ensures t.runs[i].applied <= STEP_ORDER && t.runs[i].loaded <= t.runs[i].applied
    {
      assert RunHealthy(t.world.gateway, t.org, t.revision, t.runs[i]);
    }
  }

  /** No two runs disagree on what a step returned, nor does the saved row with any of them. */
  lemma ResultsAgree(s: System, events: seq<Event>, step: StepName, i: nat, j: nat)
    requires Healthy(s) && i < |Played(s, events).runs| && j < |Played(s, events).runs| && !step.ConfirmValidate?
    requires step in Played(s, events).runs[i].applied
    ensures var t := Played(s, events);
      && step in t.runs[i].results
      && (step in t.runs[j].applied ==> step in t.runs[j].results && t.runs[j].results[step] == t.runs[i].results[step])
      && (t.world.row.Some? && step in t.world.row.value.appliedSteps ==>
            step in t.world.row.value.stepResults && t.world.row.value.stepResults[step] == t.runs[i].results[step])
  {
    var t := Played(s, events);
    var g := t.world.gateway;
    assert RunHealthy(g, t.org, t.revision, t.runs[i]) && RunHealthy(g, t.org, t.revision, t.runs[j]);
    assert Backed(g, t.org, t.revision, step, t.runs[i].results);
    if step in t.runs[j].applied {
      assert Backed(g, t.org, t.revision, step, t.runs[j].results);
    }
    if t.world.row.Some? && step in t.world.row.value.appliedSteps {
      assert Backed(g, t.org, t.revision, step, t.world.row.value.stepResults);
    }
  }

  lemma NextKeepsDigest(s: System, e: Event)
    requires AllInRange(s) && s.world.row.Some?
    ensures Next(s, e).world.row.Some?
    ensures Next(s, e).world.row.value.draftDigest == s.world.row.value.draftDigest
  {
  }

  /** The draft a checkpoint is bound to never changes, and the checkpoint never goes away. */
  lemma {:induction false} DigestNeverChanges(s: System, events: seq<Event>)
    requires Healthy(s) && s.world.row.Some?
    ensures Played(s, events).world.row.Some?
    ensures Played(s, events).world.row.value.draftDigest == s.world.row.value.draftDigest
    decreases |events|
  {
    if events != [] {
      NextHealthy(s, events[0]);
      NextKeepsDigest(s, events[0]);
      DigestNeverChanges(Next(s, events[0]), events[1..]);
    }
  }

  // ---------------------------------------------------------------- when progress shrinks

  /** The event is a write to the store, and it is taken. */
  predicate TakesWrite(s: System, e: Event) {
    && e.Move? && e.saved && e.run < |s.runs|
    && (s.runs[e.run].phase.Head? || s.runs[e.run].phase.Executed? || s.runs[e.run].phase.Ending?)
  }

  lemma WriteReplaces(w: World, r: Run, env: Env, saved: bool)
    requires InRange(r) && w.row.Some?
    ensures var v := Advance(w, r, env, saved).0;
      && v.row.Some?
      && v.row.value.appliedSteps ==
         if saved && (r.phase.Head? || r.phase.Executed? || r.phase.Ending?) then r.applied else w.row.value.appliedSteps
  {
  }

  /** An event leaves the saved list as it was unless it is a taken write, which puts the writer's own list in its place;
      so progress shrinks exactly when the writer's list is the shorter one. */
  lemma ShrinksExactly(s: System, e: Event)
    requires Healthy(s) && s.world.row.Some?
    ensures AllInRange(s) && Next(s, e).world.row.Some?
    ensures var (was, now) := (s.world.row.value.appliedSteps, Next(s, e).world.row.value.appliedSteps);
      && now == (if TakesWrite(s, e) then s.runs[e.run].applied else was)
      && (|now| < |was| <==> TakesWrite(s, e) && |s.runs[e.run].applied| < |was|)
  {
    AllInRangeHealthy(s);
    if e.Move? && e.run < |s.runs| {
      WriteReplaces(s.world, s.runs[e.run], e.env, e.saved);
    }
  }

  /** At most one run is under way, and it has everything the saved row has. */
  ghost predicate Alone(s: System) {
    && (forall i, j :: 0 <= i < |s.runs| && 0 <= j < |s.runs| && !Over(s.runs[i]) && !Over(s.runs[j]) ==> i == j)
    && (forall i :: 0 <= i < |s.runs| && !Over(s.runs[i]) ==> Ahead(s.world, s.runs[i]))
  }

  ghost predicate Ahead(w: World, r: Run) {
    w.row.Some? && |w.row.value.appliedSteps| <= |r.applied|
  }

  ghost predicate AllOver(s: System) {
    forall i :: 0 <= i < |s.runs| ==> Over(s.runs[i])
  }

  /** A run enters only after all the earlier ones ended, threw or were stopped. */
  ghost predicate OneByOne(s: System, events: seq<Event>)
    requires Healthy(s)
    decreases |events|
  {
    events == [] ||
    ((events[0].Enter? ==> AllOver(s)) && (NextHealthy(s, events[0]); OneByOne(Next(s, events[0]), events[1..])))
  }

  /** The saved list is not shorter than before. */
  ghost predicate Grown(w: World, v: World) {
    w.row.Some? ==> v.row.Some? && |w.row.value.appliedSteps| <= |v.row.value.appliedSteps|
  }

  lemma MoveGrows(w: World, r: Run, e: Event)
    requires InRange(r) && (e.Move? || e.Lose? || e.Stop?) && (Over(r) || Ahead(w, r))
    ensures var (v, q) := MoveRun(w, r, e); Grown(w, v) && (Over(q) || Ahead(v, q)) && (Over(r) ==> Over(q) && v.row == w.row)
  {
  }

  lemma NextAlone(s: System, e: Event)
    requires Healthy(s) && Alone(s) && (e.Enter? ==> AllOver(s))
    ensures AllInRange(s) && Alone(Next(s, e)) && Grown(s.world, Next(s, e).world)
  {
    AllInRangeHealthy(s);
    if e.Enter? {
      EntersAlone(s, e);
    } else if (e.Move? || e.Lose? || e.Stop?) && e.run < |s.runs| {
      MoveGrows(s.world, s.runs[e.run], e);
      MovedAlone(s, e);
    }
  }

  lemma EntersAlone(s: System, e: Event)
    requires AllInRange(s) && e.Enter? && AllOver(s)
    ensures Alone(Next(s, e)) && Grown(s.world, Next(s, e).world)
  {
  }

  lemma MovedAlone(s: System, e: Event)
    requires AllInRange(s) && Alone(s) && (e.Move? || e.Lose? || e.Stop?) && e.run < |s.runs|
    requires var (v, q) := MoveRun(s.world, s.runs[e.run], e);
      (Over(q) || Ahead(v, q)) && (Over(s.runs[e.run]) ==> Over(q) && v.row == s.world.row)
    ensures Alone(Next(s, e))
  {
    var (v, q) := MoveRun(s.world, s.runs[e.run], e);
    var t := Next(s, e);
    forall i | 0 <= i < |t.runs| && !Over(t.runs[i])
      ensures Ahead(t.world, t.runs[i])
    {
      if i != e.run {
        assert !Over(s.runs[i]);
      }
    }
  }

  /** While runs enter one by one, saved progress never shrinks, whatever writes are refused, replies lost or runs
      stopped. */
  lemma {:induction false} OneByOneNeverShrinks(s: System, events: seq<Event>)
    requires Healthy(s) && Alone(s) && OneByOne(s, events)
    ensures Grown(s.world, Played(s, events).world) && Alone(Played(s, events))
    decreases |events|
  {
    if events != [] {
      NextHealthy(s, events[0]);
      NextAlone(s, events[0]);
      OneByOneNeverShrinks(Next(s, events[0]), events[1..]);
    }
  }

  lemma PlayedOne(s: System, e: Event, rest: seq<Event>)
    requires Healthy(s)
    ensures AllInRange(s) && Healthy(Next(s, e)) && Played(s, [e] + rest) == Played(Next(s, e), rest)
  {
    NextHealthy(s, e);
    assert ([e] + rest)[1..] == rest;
  }

  /** The first three stretches of a run on a fresh checkpoint validate and save that. */
  lemma FirstStretches(g: Gateway, req: IntakeRequest, env: Env)
    requires HexDigest(req.draftDigest)
    ensures var row, r := FreshRow(req), Load(FreshRow(req), req);
      var (w1, r1) := Advance(World(Some(row), g), r, env, true);
      var (w2, r2) := Advance(w1, r1, env, true);
      var (w3, r3) := Advance(w2, r2, env, true);
      w3.row.Some? && w3.row.value.appliedSteps == [ConfirmValidate]
  {
    assert NextStep([], 0) == 0;
  }

  lemma SecondRunErases(w: World, req: IntakeRequest, env: Env)
    requires w.row.Some?
    ensures var v := Advance(w, Load(FreshRow(req), req), env, true).0; v.row.Some? && v.row.value.appliedSteps == []
  {
    assert NextStep([], 0) == 0;
  }

  lemma BothEnter(s: System, req: IntakeRequest)
    requires Healthy(s) && s.runs == [] && s.world.row.None? && Admit(s.world, req, ByRun).1.Admitted?
    requires s.org == req.organizationId && s.revision == req.intakeRevisionId
    ensures HexDigest(req.draftDigest)
    ensures var r := Load(FreshRow(req), req);
      Played(s, [Enter(req, ByRun), Enter(req, ByRun)])
      == s.(world := World(Some(FreshRow(req)), s.world.gateway), runs := [r, r])
  {
    PlayedOne(s, Enter(req, ByRun), [Enter(req, ByRun)]);
    var t := Next(s, Enter(req, ByRun));
    PlayedOne(t, Enter(req, ByRun), []);
    assert [Enter(req, ByRun)] + [] == [Enter(req, ByRun)];
    assert [Enter(req, ByRun)] + [Enter(req, ByRun)] == [Enter(req, ByRun), Enter(req, ByRun)];
  }

  lemma FirstMoves(s: System, env: Env, r: Run, other: Run, rest: seq<Event>)
    requires Healthy(s) && s.runs == [r, other]
    ensures InRange(r)
    ensures var (w, q) := Advance(s.world, r, env, true);
      var t := s.(world := w, runs := [q, other]);
      Healthy(t) && Played(s, [Move(0, env, true)] + rest) == Played(t, rest)
  {
    PlayedOne(s, Move(0, env, true), rest);
    var (w, q) := Advance(s.world, r, env, true);
    assert [r, other][0 := q] == [q, other];
  }

  lemma ThreeMoves(s: System, env: Env, r: Run)
    requires Healthy(s) && s.runs == [r, r]
    ensures InRange(r)
    ensures var (w1, r1) := Advance(s.world, r, env, true);
      var (w2, r2) := Advance(w1, r1, env, true);
      var (w3, r3) := Advance(w2, r2, env, true);
      Played(s, [Move(0, env, true), Move(0, env, true), Move(0, env, true)]) == s.(world := w3, runs := [r3, r])
  {
    var m := Move(0, env, true);
    FirstMoves(s, env, r, r, [m, m]);
    var (w1, r1) := Advance(s.world, r, env, true);
    var s1 := s.(world := w1, runs := [r1, r]);
    FirstMoves(s1, env, r1, r, [m]);
    var (w2, r2) := Advance(w1, r1, env, true);
    FirstMoves(s1.(world := w2, runs := [r2, r]), env, r2, r, []);
    assert [m] + [m, m] == [m, m, m] && [m] + [m] == [m, m] && [m] + [] == [m];
  }

  /** But saved progress can shrink: two runs enter, the first saves CONFIRM_VALIDATE, and the second one, which loaded
      before that, writes its own shorter list over it. */
  lemma ProgressCanShrink(req: IntakeRequest, g: Gateway, env: Env)
    requires Sound(g) && Admit(World(None, g), req, ByRun).1.Admitted?
    ensures Healthy(System(req.organizationId, req.intakeRevisionId, World(None, g), []))
    ensures var start := System(req.organizationId, req.intakeRevisionId, World(None, g), []);
      var both := Played(start, [Enter(req, ByRun), Enter(req, ByRun)]);
      var ahead := Played(both, [Move(0, env, true), Move(0, env, true), Move(0, env, true)]);
      var erased := Played(ahead, [Move(1, env, true)]);
      && ahead.world.row.Some? && ahead.world.row.value.appliedSteps == [ConfirmValidate]
      && erased.world.row.Some? && erased.world.row.value.appliedSteps == []
  {
    StartHealthy(req.organizationId, req.intakeRevisionId, g);
    var start := System(req.organizationId, req.intakeRevisionId, World(None, g), []);
    BothEnter(start, req);
    var both := Played(start, [Enter(req, ByRun), Enter(req, ByRun)]);
    var r := Load(FreshRow(req), req);
    ThreeMoves(both, env, r);
    FirstStretches(g, req, env);
    var ahead := Played(both, [Move(0, env, true), Move(0, env, true), Move(0, env, true)]);
    PlayedOne(ahead, Move(1, env, true), []);
    assert [Move(1, env, true)] + [] == [Move(1, env, true)];
    SecondRunErases(ahead.world, req, env);
  }
}
