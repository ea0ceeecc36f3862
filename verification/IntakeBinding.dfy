/** Which requests a saved checkpoint still lets in, and what runs let in come to. */
module IntakeBinding {
  import opened Ordering
  import opened CanonicalJson
  import opened DraftDigest
  import opened MockGateways
  import opened IntakeSteps
  import opened IntakeRuns
  import opened IntakeCrashes
  import opened IntakeFaults

  function ConfirmedTarget(req: IntakeRequest): Target {
    Target(req.confirmation.canonicalId, req.confirmation.canonicalVersion)
  }

  lemma FreshRowShape(req: IntakeRequest)
    requires req.draftDigest == DigestOf(DraftOf(req))
    ensures RowShape(FreshRow(req))
  {
  }

  lemma LoadedConsistent(w: World, req: IntakeRequest, env: Env)
    requires w.row.Some? && RowShape(w.row.value) && Binds(req.confirmation, req.intakeRevisionId, w.row.value)
    requires w.row.value.draftDigest == req.draftDigest
    ensures Consistent(w, Load(w.row.value, req), env)
  {
    StepPlaces(w.row.value.appliedSteps);
  }

  /** A run that is let in starts from the saved row and is bound to it. */
  lemma AdmittedConsistent(w: World, req: IntakeRequest, entry: Entry, env: Env)
    requires WorldShape(w) && Admit(w, req, entry).1.Admitted?
    ensures var (v, a) := Admit(w, req, entry);
      && v.gateway == w.gateway && v.row.Some? && a.run == Load(v.row.value, req) && Consistent(v, a.run, env)
      && (w.row.Some? ==> v == w)
  {
    FreshRowShape(req);
    LoadedConsistent(Admit(w, req, entry).0, req, env);
  }

  /** Crash and resume, from admission to admission: after a cut at any await, and any faults before it, the same request
      is let in exactly when the saved target is still the confirmed one, and then ends as an undisturbed run exactly when
      no possible match was saved. */
  lemma CrashEquivalence(w: World, req: IntakeRequest, first: Entry, again: Entry, env: Env, fates: nat -> Fate, k: nat)
    requires WorldShape(w) && Admit(w, req, first).1.Admitted?
    ensures var (v, a) := Admit(w, req, first); InRange(a.run)
    ensures var (v, a) := Admit(w, req, first); var cut := Suffered(v, a.run, env, fates, k).0;
      && cut.row.Some? && InRange(Load(cut.row.value, req))
      && (if cut.row.value.target == ConfirmedTarget(req) then
            && Admit(cut, req, again) == (cut, Admitted(Load(cut.row.value, req)))
            && (EndsTheSame(v, a.run, cut, env) <==> !FoundPossible(a.run, cut.row.value))
          else
            Admit(cut, req, again) == (cut, Rejected(InvalidRequest)))
  {
    AdmittedConsistent(w, req, first, env);
    var (v, a) := Admit(w, req, first);
    FaultsThenResume(v, a.run, env, fates, k);
    SufferedBound(v, a.run, env, fates, k);
  }

  // ---------------------------------------------------------------- stuck checkpoints

  lemma SameDigestSameDraft(a: Draft, b: Draft)
    requires ValidDraft(a) && ValidDraft(b) && DigestOf(a) == DigestOf(b)
    ensures a == b
  {
    DraftBinding(a, b);
    DraftGood(a);
    DraftGood(b);
  }

  /** No request is let in once the saved target differs from the one in the draft the checkpoint is bound to: the old
      confirmation no longer binds the row, and a new one changes the digest. Nothing changes either, so this is final. */
  lemma StuckForever(w: World, bound: Draft, req: IntakeRequest, entry: Entry)
    requires w.row.Some? && w.row.value.draftDigest == DigestOf(bound) && ValidDraft(bound) && ValidDraft(DraftOf(req))
    requires w.row.value.target != Target(bound.canonicalId, bound.canonicalVersion)
    ensures Admit(w, req, entry).0 == w && Admit(w, req, entry).1.Rejected?
  {
    if Admit(w, req, entry).1.Admitted? {
      SameDigestSameDraft(bound, DraftOf(req));
      assert false;
    }
  }

  function RequestFor(d: Draft): IntakeRequest {
    IntakeRequest(d.organizationId, d.intakeRevisionId, d.fullName, d.phone, d.citizenNumber, d.citizenAddress,
                  d.contactAddress, d.dob, d.stage, d.availability, d.availableFromDate, d.evidenceRefs,
                  Confirmation(d.intakeRevisionId, DigestOf(d), d.canonicalId, d.canonicalVersion), DigestOf(d),
                  [], [], [], [])
  }

  /** A checkpoint can be resumed exactly when its saved target is the one in the draft it is bound to. */
  lemma ResumableExactly(w: World, bound: Draft, entry: Entry)
    requires w.row.Some? && w.row.value.draftDigest == DigestOf(bound) && ValidDraft(bound)
    requires bound.organizationId != [] && bound.intakeRevisionId != []
    ensures (exists req :: ValidDraft(DraftOf(req)) && Admit(w, req, entry).1.Admitted?)
       <==> w.row.value.target == Target(bound.canonicalId, bound.canonicalVersion)
  {
    if w.row.value.target == Target(bound.canonicalId, bound.canonicalVersion) {
      var req := RequestFor(bound);
      assert DraftOf(req) == bound;
      assert Admit(w, req, entry).1.Admitted?;
    } else {
      forall req | ValidDraft(DraftOf(req))
        ensures Admit(w, req, entry).1.Rejected?
      {
        StuckForever(w, bound, req, entry);
      }
    }
  }

  /** In particular a run whose IDENTITY found or created another profile than the confirmed one can never be resumed
      after its checkpoint is saved, whatever goes wrong later. */
  lemma OtherProfileIsStuck(w: World, r: Run, env: Env, req: IntakeRequest, entry: Entry)
    requires Consistent(w, r, env) && r.phase == Executed(1)
    requires r.req.draftDigest == DigestOf(DraftOf(r.req)) && ValidDraft(DraftOf(r.req)) && ValidDraft(DraftOf(req))
    requires var found := r.results[Identity];
      !found.kind.PossibleMatch? && found.matchedId.Some? && found.matchedId != r.req.confirmation.canonicalId
    ensures InRange(r) && Admit(Advance(w, r, env, true).0, req, entry).1.Rejected?
  {
    StuckForever(Advance(w, r, env, true).0, DraftOf(r.req), req, entry);
  }

  // ---------------------------------------------------------------- outcomes

  /** A run left alone, every write taken, completes exactly when all five steps are applied; it stops in PARTIAL with
      some but not all of them and the next one failed; it never ends FAILED; and it waits for review exactly when it
      found a possible match itself. The saved row says the same, and stays bound to the same draft. */
  lemma RunOutcome(w: World, r: Run, env: Env)
    requires Consistent(w, r, env)
    ensures InRange(r) && var (v, x) := Finish(w, r, env);
      && x.phase.Done? && v.row.Some?
      && var t, row := x.phase.outcome, v.row.value;
         && row.state == Final(t) && row.appliedSteps == x.applied && row.draftDigest == w.row.value.draftDigest
         && Prefix(x.applied) && x.applied != []
         && (t == Completed <==> x.applied == STEP_ORDER)
         && (t == Partial <==> x.failure.Some?)
         && (x.failure.Some? ==> |x.applied| < 5 && x.failure.value.failedStep == STEP_ORDER[|x.applied|])
         && (t == ReviewPending <==> FoundPossible(r, row))
         && t != FinalState.Failed
  {
    RunEnds(w, r, env);
    StepsKeepRequest(w, r, env, RUN_LENGTH);
    var (v, x) := Finish(w, r, env);
    FoundPossibleIsReview(v, x, env);
  }

  // ---------------------------------------------------------------- the scenario every step is wired to

  const EXACT_TARGET: Target := Target(Some(Ascii("lp-fixture-exact-001")), Some(Ascii("1")))

  function ExactMatchSuccess(): Fixture<Data> {
    Fixture({InboundDefault, InboundReviewer}, {CreateOrMatchLaborProfile},
            Applies(Data(Some(ExactMatch), EXACT_TARGET.id, EXACT_TARGET.version, None, false, None, None, None, None,
                         None, None)))
  }

  function WiredEnv(collectedAt: Text, clock: int): Env {
    Env(ExactMatchSuccess(), ExactMatchSuccess(), ExactMatchSuccess(), ExactMatchSuccess(), collectedAt, clock)
  }

  lemma ThreeSteps(w: World, r: Run, env: Env)
    requires InRange(r)
    ensures var (v, q) := Advance(w, r, env, true); var (u, x) := Advance(v, q, env, true);
      Steps(w, r, env, 3) == Advance(u, x, env, true)
  {
    TwoSteps(w, r, env);
    StepsCompose(w, r, env, 2, 1);
    var (u, x) := Steps(w, r, env, 2);
    OneStep(u, x, env);
  }

  lemma ValidatedFirst(w: World, r: Run, env: Env)
    requires Consistent(w, r, env) && r.phase == Head(0) && r.loaded == r.applied == []
    ensures InRange(r) && var (v, q) := Steps(w, r, env, 3);
      && q.phase == Head(1) && q.applied == [ConfirmValidate] && q.loaded == [] && q.req == r.req && q.results == r.results
      && q.target == r.target && v.gateway == w.gateway && Consistent(v, q, env)
  {
    HeadAdvance(w, r, env, true);
    ThreeSteps(w, r, env);
    StepsConsistent(w, r, env, 3);
  }

  lemma WiredIdentity(req: IntakeRequest, target: Target, collectedAt: Text, clock: int)
    ensures var env := WiredEnv(collectedAt, clock);
      var (g, outcome) := Perform(Identity, req, target, Fresh(), env);
      && outcome.Success? && outcome.result.IdentityResult? && outcome.result.kind == ExactMatch
      && Retarget(target, outcome.result) == EXACT_TARGET
      && g.effects == [EffectOf(StepRequest(Identity, req, target, collectedAt))]
      && g.cache.Keys == {StepCacheKey(req.organizationId, req.intakeRevisionId, Identity)}
  {
  }

  lemma WiredProfile(req: IntakeRequest, g: Gateway, collectedAt: Text, clock: int)
    requires g.cache.Keys == {StepCacheKey(req.organizationId, req.intakeRevisionId, Identity)}
    ensures Perform(Profile, req, EXACT_TARGET, g, WiredEnv(collectedAt, clock))
         == (g, Failure(Contract(PolicyRejection), true))
  {
    StepKeysDistinct(req.organizationId, req.intakeRevisionId, Identity, Profile);
    assert |EXACT_TARGET.id.value| == 20;
  }

  lemma IdentityTurn(w: World, r: Run, collectedAt: Text, clock: int)
    requires Shape(r) && w.row.Some? && r.phase == Head(1) && w.gateway == Fresh()
    requires r.applied == [ConfirmValidate] && r.loaded == []
    ensures InRange(r) && var (v, q) := Steps(w, r, WiredEnv(collectedAt, clock), 3);
      && q.phase == Head(2) && q.applied == [ConfirmValidate, Identity] && q.loaded == [] && q.req == r.req
      && q.target == EXACT_TARGET
      && v.gateway.effects == [EffectOf(StepRequest(Identity, r.req, r.target, collectedAt))]
      && v.gateway.cache.Keys == {StepCacheKey(r.req.organizationId, r.req.intakeRevisionId, Identity)}
  {
    var env := WiredEnv(collectedAt, clock);
    WiredIdentity(r.req, r.target, collectedAt, clock);
    HeadAdvance(w, r, env, true);
    ThreeSteps(w, r, env);
  }

  lemma MatchedSecond(w: World, r: Run, collectedAt: Text, clock: int)
    requires Consistent(w, r, WiredEnv(collectedAt, clock)) && r.phase == Head(1) && w.gateway == Fresh()
    requires r.applied == [ConfirmValidate] && r.loaded == []
    ensures InRange(r) && var (v, q) := Steps(w, r, WiredEnv(collectedAt, clock), 3);
      && q.phase == Head(2) && q.applied == [ConfirmValidate, Identity] && q.loaded == [] && q.req == r.req
      && q.target == EXACT_TARGET && Consistent(v, q, WiredEnv(collectedAt, clock))
      && v.gateway.effects == [EffectOf(StepRequest(Identity, r.req, r.target, collectedAt))]
      && v.gateway.cache.Keys == {StepCacheKey(r.req.organizationId, r.req.intakeRevisionId, Identity)}
  {
    IdentityTurn(w, r, collectedAt, clock);
    StepsConsistent(w, r, WiredEnv(collectedAt, clock), 3);
  }

  lemma RejectedThird(w: World, r: Run, collectedAt: Text, clock: int)
    requires Shape(r) && w.row.Some? && r.phase == Head(2) && r.target == EXACT_TARGET
    requires r.applied == [ConfirmValidate, Identity]
    requires w.gateway.cache.Keys == {StepCacheKey(r.req.organizationId, r.req.intakeRevisionId, Identity)}
    ensures InRange(r) && var (v, q) := Steps(w, r, WiredEnv(collectedAt, clock), 3);
      && q.phase == Done(Partial) && q.applied == [ConfirmValidate, Identity] && v.gateway == w.gateway
      && q.failure == Some(PartialFailure(Profile, Contract(PolicyRejection), true)) && v.row.Some?
      && v.row.value.target == EXACT_TARGET
  {
    var env := WiredEnv(collectedAt, clock);
    WiredProfile(r.req, w.gateway, collectedAt, clock);
    HeadAdvance(w, r, env, true);
    ThreeSteps(w, r, env);
  }

  /** As wired, with EXACT_MATCH_SUCCESS for every step, no first run completes: IDENTITY takes effect, PROFILE is
      rejected by policy, and a resume is let in only if the fixture's own profile and version had been confirmed. */
  lemma WiredRunStopsAtProfile(req: IntakeRequest, collectedAt: Text, clock: int)
    requires Admit(World(None, Fresh()), req, ByRun).1.Admitted?
    ensures var (v, a) := Admit(World(None, Fresh()), req, ByRun);
      InRange(a.run) && var (u, x) := Finish(v, a.run, WiredEnv(collectedAt, clock));
      && x.phase == Done(Partial) && x.applied == [ConfirmValidate, Identity]
      && x.failure == Some(PartialFailure(Profile, Contract(PolicyRejection), true))
      && u.gateway.effects == [EffectOf(StepRequest(Identity, req, ConfirmedTarget(req), collectedAt))]
      && (Admit(u, req, ByResume).1.Admitted? <==> ConfirmedTarget(req) == EXACT_TARGET)
  {
    var env := WiredEnv(collectedAt, clock);
    AdmittedConsistent(World(None, Fresh()), req, ByRun, env);
    var (v, a) := Admit(World(None, Fresh()), req, ByRun);
    ValidatedFirst(v, a.run, env);
    var (v1, r1) := Steps(v, a.run, env, 3);
    MatchedSecond(v1, r1, collectedAt, clock);
    var (v2, r2) := Steps(v1, r1, env, 3);
    RejectedThird(v2, r2, collectedAt, clock);
    var (v3, r3) := Steps(v2, r2, env, 3);
    StepsCompose(v2, r2, env, 3, RUN_LENGTH - 9);
    StepsCompose(v1, r1, env, 3, RUN_LENGTH - 6);
    StepsCompose(v, a.run, env, 3, RUN_LENGTH - 3);
    DoneStays(v3, r3, env, RUN_LENGTH - 9);
    RunOutcome(v, a.run, env);
  }
}
