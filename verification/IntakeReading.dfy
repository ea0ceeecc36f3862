/** What runs make of the replies: results, targets and failures, field by field, over any interleaving. */
module IntakeReading {
  import opened Ordering
  import opened CanonicalJson
  import opened DraftDigest
  import opened MockGateways
  import opened IntakeSteps
  import opened IntakeRuns
  import opened IntakeBinding
  import opened IntakeInterleaving

  // ---------------------------------------------------------------- results

  predicate OrGiven(told: Text, reported: Option<Text>, other: Text) {
    told == if reported.Some? then reported.value else other
  }

  /** The result says what the reply to this payload said, with what was sent standing in for what it left out. An accepted
      profile or availability counts as done as sent. */
  predicate Reads(result: StepResult, p: Payload, reply: Reply<Data>) {
    match p
    case CreateOrMatch(_, _, _, _, _, _, _, _, _, _, _) =>
      && reply.Applied? && result.IdentityResult? && reply.data.matchingOutcome == Some(result.kind)
      && result.matchedId == reply.data.laborProfileId && result.matchedVersion == reply.data.version
      && result.reviewRef == reply.data.reviewRef && result.gatewayResponse == reply
    case UpdateProfile(_, id, _, _, _, _) =>
      if reply.Applied? && reply.data.isNoop then
        && result.ProfileNoop? && OrGiven(result.canonicalId, reply.data.canonicalId, id)
        && result.currentVersion == reply.data.currentVersion
      else
        && result.ProfileApplied? && !reply.Failed?
        && OrGiven(result.canonicalId, if reply.Applied? then reply.data.canonicalId else None, id)
        && result.newVersion == (if reply.Applied? then reply.data.newVersion else None)
    case OpenCase(_, _, stage, _, _, _, _, _, _) =>
      && reply.Applied? && result.CaseResult?
      && reply.data.canonicalId == Some(result.canonicalId) && result.canonicalId != []
      && OrGiven(result.version, reply.data.version, [49]) && OrGiven(result.appliedStage, reply.data.appliedStage, stage)
    case UpdateAvailability(_, id, _, availability, _, _, _) =>
      && !reply.Failed? && result.AvailabilityResult?
      && OrGiven(result.canonicalId, if reply.Applied? then reply.data.canonicalId else None, id)
      && OrGiven(result.version, if reply.Applied? then reply.data.version else None, [49])
      && OrGiven(result.appliedAvailability, if reply.Applied? then reply.data.appliedAvailability else None, availability)
      && result.appliedAvailableFromDate == (if reply.Applied? then reply.data.appliedAvailableFromDate else None)
  }

  /** A reply is made something of exactly when there is what the step needs in it. */
  lemma SuccessReads(p: Payload, reply: Reply<Data>)
    ensures Interpret(p, reply).Success? ==> Reads(Interpret(p, reply).result, p, reply)
    ensures Interpret(p, reply).Success? <==>
      !reply.Failed?
      && (p.CreateOrMatch? ==> reply.Applied? && reply.data.matchingOutcome.Some?)
      && (p.OpenCase? ==> reply.Applied? && reply.data.canonicalId.Some? && reply.data.canonicalId.value != [])
  {
    assert Ascii("1") == [49];
  }

  /** Whoever counts a step as applied, a run or the saved row, has for it what the gateway's cached reply said. */
  lemma ResultsTellReplies(s: System, events: seq<Event>, step: StepName, i: nat)
    requires Healthy(s) && !step.ConfirmValidate?
    ensures var t := Played(s, events); var (key, cache) := (StepCacheKey(t.org, t.revision, step), t.world.gateway.cache);
      && (i < |t.runs| && step in t.runs[i].applied ==>
            && step in t.runs[i].results && key in cache
            && Reads(t.runs[i].results[step], cache[key].digest, cache[key].reply))
      && (t.world.row.Some? && step in t.world.row.value.appliedSteps ==>
            && step in t.world.row.value.stepResults && key in cache
            && Reads(t.world.row.value.stepResults[step], cache[key].digest, cache[key].reply))
  {
    var t := Played(s, events);
    var (g, key) := (t.world.gateway, StepCacheKey(t.org, t.revision, step));
    if i < |t.runs| && step in t.runs[i].applied {
      assert RunHealthy(g, t.org, t.revision, t.runs[i]);
      assert Backed(g, t.org, t.revision, step, t.runs[i].results);
      SuccessReads(g.cache[key].digest, g.cache[key].reply);
    }
    if t.world.row.Some? && step in t.world.row.value.appliedSteps {
      assert Backed(g, t.org, t.revision, step, t.world.row.value.stepResults);
      SuccessReads(g.cache[key].digest, g.cache[key].reply);
    }
  }

  // ---------------------------------------------------------------- targets

  /** The run carried IDENTITY out itself, and that named a profile that is not just a possible match. */
  predicate NamedProfile(r: Run) {
    && |r.loaded| < 2 <= |r.applied| && Identity in r.results && r.results[Identity].IdentityResult?
    && r.results[Identity].kind != PossibleMatch && r.results[Identity].matchedId.Some?
  }

  /** The version that PROFILE reported, if the run carried it out itself. */
  function ProfileVersion(r: Run): Option<Text> {
    if |r.loaded| < 3 <= |r.applied| && Profile in r.results then
      match r.results[Profile]
      case ProfileApplied(_, version) => version
      case ProfileNoop(_, version) => version
      case _ => None
    else None
  }

  /** The confirmed profile and version, until IDENTITY names another and PROFILE reports a new version. */
  predicate FollowsReplies(r: Run) {
    && r.target.id == (if NamedProfile(r) then r.results[Identity].matchedId else r.req.confirmation.canonicalId)
    && r.target.version ==
       if ProfileVersion(r).Some? then ProfileVersion(r)
       else if NamedProfile(r) && r.results[Identity].matchedVersion.Some? then r.results[Identity].matchedVersion
       else r.req.confirmation.canonicalVersion
  }

  lemma SuccessKind(step: StepName, req: IntakeRequest, target: Target, g: Gateway, env: Env)
    requires Perform(step, req, target, g, env).1.Success?
    ensures var result := Perform(step, req, target, g, env).1.result;
      && (step.ConfirmValidate? <==> result.Validated?) && (step.Identity? <==> result.IdentityResult?)
      && (step.Profile? <==> result.ProfileApplied? || result.ProfileNoop?)
  {
  }

  lemma AbsorbFollows(r: Run, step: StepName, at: nat, result: StepResult)
    requires Shape(r) && r.phase == Marked(at) && step == STEP_ORDER[at] && FollowsReplies(r)
    requires (step.ConfirmValidate? <==> result.Validated?) && (step.Identity? <==> result.IdentityResult?)
    requires step.Profile? <==> result.ProfileApplied? || result.ProfileNoop?
    ensures FollowsReplies(Absorb(r, step, at, result))
  {
    StepPlaces(r.applied);
  }

  ghost predicate SameReading(r: Run, q: Run) {
    q.req == r.req && q.loaded == r.loaded && q.applied == r.applied && q.results == r.results && q.target == r.target
  }

  lemma SameReadingFollows(r: Run, q: Run)
    requires SameReading(r, q) && FollowsReplies(r)
    ensures FollowsReplies(q)
  {
  }

  lemma ExecutedFrom(w: World, r: Run, at: nat, env: Env)
    requires at < |STEP_ORDER|
    ensures var (outcome, q) := (Perform(STEP_ORDER[at], r.req, r.target, w.gateway, env).1, Execute(w, r, at, env).1);
      SameReading(if outcome.Success? then Absorb(r, STEP_ORDER[at], at, outcome.result) else r, q)
  {
  }

  lemma ExecuteFollows(w: World, r: Run, at: nat, env: Env)
    requires Shape(r) && r.phase == Marked(at) && FollowsReplies(r)
    ensures FollowsReplies(Execute(w, r, at, env).1)
  {
    var (g, outcome) := Perform(STEP_ORDER[at], r.req, r.target, w.gateway, env);
    var q := Execute(w, r, at, env).1;
    ExecutedFrom(w, r, at, env);
    if outcome.Success? {
      SuccessKind(STEP_ORDER[at], r.req, r.target, w.gateway, env);
      AbsorbFollows(r, STEP_ORDER[at], at, outcome.result);
      SameReadingFollows(Absorb(r, STEP_ORDER[at], at, outcome.result), q);
    } else {
      SameReadingFollows(r, q);
    }
  }

  lemma OtherMovesKeep(w: World, r: Run, e: Event)
    requires InRange(r) && (e.Move? || e.Lose? || e.Stop?)
    requires !(r.phase.Marked? && (e.Move? || (e.Lose? && !Calls(STEP_ORDER[r.phase.at], r.target))))
    ensures SameReading(r, MoveRun(w, r, e).1)
  {
  }

  lemma MoveFollows(w: World, r: Run, e: Event)
    requires Shape(r) && InRange(r) && (e.Move? || e.Lose? || e.Stop?) && FollowsReplies(r)
    ensures FollowsReplies(MoveRun(w, r, e).1)
  {
    if r.phase.Marked? && (e.Move? || (e.Lose? && !Calls(STEP_ORDER[r.phase.at], r.target))) {
      ExecuteFollows(w, r, r.phase.at, e.env);
    } else {
      OtherMovesKeep(w, r, e);
    }
  }

  lemma EnterFollows(w: World, req: IntakeRequest, entry: Entry)
    requires WorldShape(w) && Admit(w, req, entry).1.Admitted?
    ensures FollowsReplies(Admit(w, req, entry).1.run)
  {
  }

  ghost predicate AllFollow(s: System) {
    forall i :: 0 <= i < |s.runs| ==> FollowsReplies(s.runs[i])
  }

  lemma EnteredFollow(s: System, req: IntakeRequest, entry: Entry)
    requires Healthy(s) && AllInRange(s) && AllFollow(s)
    ensures AllFollow(Next(s, Enter(req, entry)))
  {
    if Admit(s.world, req, entry).1.Admitted? {
      EnterFollows(s.world, req, entry);
    }
  }

  lemma NextFollows(s: System, e: Event)
    requires Healthy(s) && AllInRange(s) && AllFollow(s)
    ensures AllFollow(Next(s, e))
  {
    match e {
      case Enter(req, entry) => EnteredFollow(s, req, entry);
      case Outside(_, _, _) =>
      case _ =>
        if e.run < |s.runs| {
          MovedFollow(s, e);
        }
    }
  }

  lemma MovedFollow(s: System, e: Event)
    requires Healthy(s) && AllInRange(s) && AllFollow(s) && (e.Move? || e.Lose? || e.Stop?) && e.run < |s.runs|
    ensures AllFollow(Next(s, e))
  {
    MoveFollows(s.world, s.runs[e.run], e);
    MovedRuns(s, e);
    ReplacedFollow(s, Next(s, e), e.run, MoveRun(s.world, s.runs[e.run], e).1);
  }

  lemma MovedRuns(s: System, e: Event)
    requires AllInRange(s) && (e.Move? || e.Lose? || e.Stop?) && e.run < |s.runs|
    ensures Next(s, e).runs == s.runs[e.run := MoveRun(s.world, s.runs[e.run], e).1]
  {
  }

  lemma ReplacedFollow(s: System, t: System, i: nat, q: Run)
    requires AllFollow(s) && i < |s.runs| && t.runs == s.runs[i := q] && FollowsReplies(q)
    ensures AllFollow(t)
  {
  }

  /** Over any interleaving every run stands on the profile and version it was confirmed for, until its own IDENTITY names
      another profile and its own PROFILE reports another version: a possible match, and what it only loaded, never move it. */
  lemma {:induction false} TargetsFollow(s: System, events: seq<Event>)
    requires Healthy(s) && AllFollow(s)
    ensures AllFollow(Played(s, events))
    decreases |events|
  {
    if events != [] {
      NextHealthy(s, events[0]);
      NextFollows(s, events[0]);
      TargetsFollow(Next(s, events[0]), events[1..]);
    }
  }

  // ---------------------------------------------------------------- failures

  /** A real digest, or any other text of 64 lower-case hexadecimal digits. */
  predicate Hex64(d: Digest) {
    d.Sha? || (|d.text| == 64 && forall i :: 0 <= i < 64 ==> 48 <= d.text[i] <= 57 || 97 <= d.text[i] <= 102)
  }

  /** A step fails for itself without a usable digest or a target; with the code of a failed reply; or with an unknown
      outcome when the reply lacks what it needs. Trying again is pointless after a validation error, a refusal for lack of
      rights or a conflict, and in the first case. */
  lemma StepFailsExactly(step: StepName, req: IntakeRequest, target: Target, g: Gateway, env: Env, code: FailureCode, again: bool)
    ensures Perform(step, req, target, g, env).1 == Failure(code, again) <==>
      if step == ConfirmValidate then !Hex64(req.draftDigest) && code == Contract(ValidationError) && !again
      else if step != Identity && (target.id == None || target.id == Some([])) then code == Contract(ValidationError) && !again
      else
        var reply := Decide(g, FixtureFor(env, step), env.clock, StepRequest(step, req, target, env.collectedAt)).1;
        if reply.Failed? then
          code == Contract(reply.code) && (again <==> reply.code !in {ValidationError, Forbidden, IdempotencyConflict})
        else
          && code == Contract(UnknownCommandOutcome) && again
          && ((step == Identity && !(reply.Applied? && reply.data.matchingOutcome.Some?))
              || (step == Case && !(reply.Applied? && reply.data.canonicalId.Some? && reply.data.canonicalId.value != [])))
  {
  }

  /** A run that fails at a step, or whose write after it fails, says so, and stops there with what it had. */
  lemma FailureTold(w: World, r: Run, at: nat, env: Env, code: ErrorCode, sent: bool)
    requires Shape(r) && at < |STEP_ORDER|
    ensures r.phase == Marked(at) && Calls(STEP_ORDER[at], r.target) ==>
      LoseReply(w, r, at, env, code, sent).1.failure
      == Some(PartialFailure(STEP_ORDER[at], Contract(code), code in {DependencyUnavailable, RateLimited}))
    ensures r.phase == Executed(at) ==>
      Commit(w, r, at, false).1.failure == Some(PartialFailure(STEP_ORDER[at], TransactionFailed, false))
    ensures r.phase == Marked(at) ==>
      match Perform(STEP_ORDER[at], r.req, r.target, w.gateway, env).1
      case Success(_) => Execute(w, r, at, env).1.failure == None && Execute(w, r, at, env).1.acted
      case Failure(c, again) => Execute(w, r, at, env).1.failure == Some(PartialFailure(STEP_ORDER[at], c, again))
  {
  }

  // ---------------------------------------------------------------- what a digest binds

  /** Requests have the same digest exactly when they agree on everything staff confirmed; where a submission came from
      is not part of it. */
  lemma DigestBindsRequest(a: IntakeRequest, b: IntakeRequest)
    requires ValidDraft(DraftOf(a)) && ValidDraft(DraftOf(b))
    ensures DigestOf(DraftOf(a)) == DigestOf(DraftOf(b)) <==>
      && a.organizationId == b.organizationId && a.intakeRevisionId == b.intakeRevisionId
      && a.fullName == b.fullName && a.phone == b.phone
      && a.citizenNumber == b.citizenNumber && a.citizenAddress == b.citizenAddress
      && a.contactAddress == b.contactAddress && a.dob == b.dob
      && a.stage == b.stage && a.availability == b.availability && a.availableFromDate == b.availableFromDate
      && a.evidenceRefs == b.evidenceRefs
      && a.confirmation.canonicalId == b.confirmation.canonicalId
      && a.confirmation.canonicalVersion == b.confirmation.canonicalVersion
  {
    if DigestOf(DraftOf(a)) == DigestOf(DraftOf(b)) {
      SameDigestSameDraft(DraftOf(a), DraftOf(b));
    }
  }

  /** The checkpoint is bound to the draft of the request, and still to the profile and version confirmed in it. */
  predicate BoundTo(row: Row, req: IntakeRequest) {
    && row.draftDigest == req.draftDigest
    && row.target.id == req.confirmation.canonicalId && row.target.version == req.confirmation.canonicalVersion
  }

  /** A request is let in exactly when both its digests are those of its own data, its confirmation is for this revision,
      and the checkpoint, if there is one, is bound to the same draft and still to the confirmed profile and version. */
  lemma AdmittedExactly(w: World, req: IntakeRequest, entry: Entry)
    ensures Admit(w, req, entry).1.Admitted? <==>
      && req.draftDigest == DigestOf(DraftOf(req)) && req.confirmation.draftDigest == DigestOf(DraftOf(req))
      && req.organizationId != [] && req.intakeRevisionId != [] && req.confirmation.draftRevisionId == req.intakeRevisionId
      && (w.row.None? ==> entry == ByRun)
      && (w.row.Some? ==> BoundTo(w.row.value, req))
    ensures Admit(w, req, entry).1 == Rejected(IdempotencyMismatch) <==>
      || req.draftDigest != DigestOf(DraftOf(req))
      || (req.confirmation.draftDigest == req.draftDigest && req.organizationId != [] && req.intakeRevisionId != []
          && w.row.Some? && w.row.value.draftDigest != req.draftDigest)
    ensures var (v, a) := Admit(w, req, entry);
      var target := Target(req.confirmation.canonicalId, req.confirmation.canonicalVersion);
      && (w.row.Some? ==> v == w)
      && (w.row.None? && a.Admitted? ==>
            && v == w.(row := Some(Row(req.draftDigest, target, Some(ConfirmValidate), Running, [], map[], None)))
            && a.run == Run(req, [], [], map[], target, None, false, [], Head(0)))
      && (w.row.Some? && a.Admitted? ==>
            var row := w.row.value;
            a.run == Run(req, row.appliedSteps, row.appliedSteps, row.stepResults, target, None, false, [], Head(0)))
  {
  }
}
