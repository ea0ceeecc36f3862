/** The wall clock between a crash and the resume: the identity payload holds the time of the call. */
module IntakeClocks {
  import opened Ordering
  import opened CanonicalJson
  import opened MockGateways
  import opened IntakeSteps
  import opened IntakeRuns
  import opened IntakeCrashes

  function IdentityKey(req: IntakeRequest): Text {
    StepCacheKey(req.organizationId, req.intakeRevisionId, Identity)
  }

  /** The call IDENTITY makes at this time, whatever its target. */
  function IdentityCall(req: IntakeRequest, time: Text): Request<Payload> {
    StepRequest(Identity, req, Target(None, None), time)
  }

  /** The gateway holds a result for just this call. */
  predicate Answers(g: Gateway, req: IntakeRequest, time: Text) {
    IdentityKey(req) in g.cache && SameCall(g.cache[IdentityKey(req)], IdentityCall(req, time))
  }

  /** IDENTITY is not saved as applied but its key is taken, by the call of one of the two times and not of the other. */
  predicate Torn(cut: World, req: IntakeRequest, first: Text, later: Text)
    requires cut.row.Some?
  {
    && Identity !in cut.row.value.appliedSteps && IdentityKey(req) in cut.gateway.cache
    && Answers(cut.gateway, req, first) != Answers(cut.gateway, req, later)
  }

  /** Equal up to the payload digest kept under one key. */
  ghost predicate SameBut(g: Gateway, h: Gateway, key: Text) {
    && g.issued == h.issued && g.effects == h.effects && g.cache.Keys == h.cache.Keys
    && (forall k :: k in g.cache && k != key ==> g.cache[k] == h.cache[k])
    && (key in g.cache ==> g.cache[key].(digest := h.cache[key].digest) == h.cache[key])
  }

  // ---------------------------------------------------------------- after IDENTITY the time does not matter

  predicate PastIdentity(r: Run) {
    |r.applied| >= 2 || r.phase.Ending? || r.phase.Done? || r.phase.Threw?
  }

  lemma DecideElsewhere(g: Gateway, h: Gateway, key: Text, f: Fixture<Data>, clock: int, call: Request<Payload>)
    requires SameBut(g, h, key) && KeyOf(call) != key
    ensures Decide(g, f, clock, call).1 == Decide(h, f, clock, call).1
    ensures SameBut(Decide(g, f, clock, call).0, Decide(h, f, clock, call).0, key)
  {
  }

  lemma PerformElsewhere(step: StepName, req: IntakeRequest, target: Target, g: Gateway, h: Gateway, env: Env, later: Text)
    requires !step.Identity? && SameBut(g, h, IdentityKey(req))
    ensures Perform(step, req, target, g, env).1 == Perform(step, req, target, h, env.(collectedAt := later)).1
    ensures SameBut(Perform(step, req, target, g, env).0, Perform(step, req, target, h, env.(collectedAt := later)).0,
                    IdentityKey(req))
  {
    if Calls(step, target) {
      StepKeysDistinct(req.organizationId, req.intakeRevisionId, step, Identity);
      DecideElsewhere(g, h, IdentityKey(req), FixtureFor(env, step), env.clock,
                      StepRequest(step, req, target, env.collectedAt));
    }
  }

  lemma ExecuteElsewhere(w: World, v: World, r: Run, at: nat, env: Env, later: Text)
    requires at < |STEP_ORDER| && at != 1 && w.row == v.row && SameBut(w.gateway, v.gateway, IdentityKey(r.req))
    ensures var ((w', x), (v', y)) := (Execute(w, r, at, env), Execute(v, r, at, env.(collectedAt := later)));
      x == y && w'.row == v'.row && SameBut(w'.gateway, v'.gateway, IdentityKey(r.req))
  {
    PerformElsewhere(STEP_ORDER[at], r.req, r.target, w.gateway, v.gateway, env, later);
  }

  lemma WriteElsewhere(w: World, v: World, r: Run, env: Env, later: Text)
    requires InRange(r) && !r.phase.Marked? && w.row == v.row
    ensures var ((w', x), (v', y)) := (Advance(w, r, env, true), Advance(v, r, env.(collectedAt := later), true));
      x == y && w'.row == v'.row && w'.gateway == w.gateway && v'.gateway == v.gateway
  {
  }

  lemma KeepsPast(w: World, r: Run, env: Env)
    requires InRange(r) && PastIdentity(r)
    ensures PastIdentity(Advance(w, r, env, true).1) && Advance(w, r, env, true).1.req == r.req
  {
  }

  lemma StaysPast(w: World, r: Run, env: Env)
    requires Shape(r) && PastIdentity(r)
    ensures InRange(r) && Shape(Advance(w, r, env, true).1) && PastIdentity(Advance(w, r, env, true).1)
    ensures Advance(w, r, env, true).1.req == r.req
  {
    AdvanceShape(w, r, env, true);
    KeepsPast(w, r, env);
  }

  lemma TwinAdvance(w: World, v: World, r: Run, env: Env, later: Text)
    requires Shape(r) && PastIdentity(r) && w.row == v.row && SameBut(w.gateway, v.gateway, IdentityKey(r.req))
    ensures InRange(r)
    ensures var ((w', x), (v', y)) := (Advance(w, r, env, true), Advance(v, r, env.(collectedAt := later), true));
      x == y && w'.row == v'.row && SameBut(w'.gateway, v'.gateway, IdentityKey(r.req))
  {
    if r.phase.Marked? {
      ExecuteElsewhere(w, v, r, r.phase.at, env, later);
    } else {
      StaysPast(w, r, env);
      WriteElsewhere(w, v, r, env, later);
    }
  }

  lemma {:induction false} TwinSteps(w: World, v: World, r: Run, env: Env, later: Text, n: nat)
    requires Shape(r) && PastIdentity(r) && w.row == v.row && SameBut(w.gateway, v.gateway, IdentityKey(r.req))
    ensures InRange(r)
    ensures var ((w', x), (v', y)) := (Steps(w, r, env, n), Steps(v, r, env.(collectedAt := later), n));
      x == y && w'.row == v'.row && SameBut(w'.gateway, v'.gateway, IdentityKey(r.req))
    decreases n
  {
    StaysPast(w, r, env);
    if n > 0 {
      TwinAdvance(w, v, r, env, later);
      TwinSteps(Advance(w, r, env, true).0, Advance(v, r, env.(collectedAt := later), true).0,
                Advance(w, r, env, true).1, env, later, n - 1);
    }
  }

  // ---------------------------------------------------------------- IDENTITY at two times

  lemma DecideFresh(g: Gateway, req: IntakeRequest, target: Target, env: Env, later: Text)
    requires IdentityKey(req) !in g.cache
    ensures var (h, reply) := Decide(g, env.identity, env.clock, StepRequest(Identity, req, target, env.collectedAt));
      var (h', reply') := Decide(g, env.identity, env.clock, StepRequest(Identity, req, target, later));
      reply == reply' && SameBut(h, h', IdentityKey(req))
  {
  }

  /** IDENTITY was not cached: both calls are carried out alike. */
  lemma IdentityFresh(w: World, r: Run, env: Env, later: Text)
    requires r.phase == Marked(1) && IdentityKey(r.req) !in w.gateway.cache
    ensures var ((w', x), (v', y)) := (Execute(w, r, 1, env), Execute(w, r, 1, env.(collectedAt := later)));
      x == y && w'.row == v'.row && SameBut(w'.gateway, v'.gateway, IdentityKey(r.req))
  {
    DecideFresh(w.gateway, r.req, r.target, env, later);
  }

  lemma IdentityCached(w: World, r: Run, env: Env)
    requires r.phase == Marked(1) && IdentityKey(r.req) in w.gateway.cache
    ensures var cached := w.gateway.cache[IdentityKey(r.req)];
      Perform(Identity, r.req, r.target, w.gateway, env) ==
        (w.gateway, if Answers(w.gateway, r.req, env.collectedAt)
                    then Interpret(IdentityCall(r.req, env.collectedAt).digest, cached.reply)
                    else Failure(Contract(IdempotencyConflict), false))
  {
  }

  lemma IdentityAlike(w: World, r: Run, env: Env, later: Text)
    requires r.phase == Marked(1) && IdentityKey(r.req) in w.gateway.cache
    requires Answers(w.gateway, r.req, env.collectedAt) == Answers(w.gateway, r.req, later)
    ensures Execute(w, r, 1, env) == Execute(w, r, 1, env.(collectedAt := later))
  {
    IdentityCached(w, r, env);
    IdentityCached(w, r, env.(collectedAt := later));
  }

  /** The step failed because its key was taken by another call. */
  predicate Refused(r: Run) {
    r.phase.Ending? && r.failure == Some(PartialFailure(Identity, Contract(IdempotencyConflict), false))
  }

  lemma RefusedExactly(w: World, r: Run, env: Env)
    requires Shape(r) && r.phase == Marked(1) && IdentityKey(r.req) in w.gateway.cache
    requires !w.gateway.cache[IdentityKey(r.req)].reply.Failed?
    ensures var x := Execute(w, r, 1, env).1;
      && (Refused(x) <==> !Answers(w.gateway, r.req, env.collectedAt))
      && (x.phase.Ending? || |x.applied| == 2)
  {
    IdentityCached(w, r, env);
  }

  // ---------------------------------------------------------------- from the saved row to IDENTITY

  /** The run stands right before its IDENTITY call. */
  ghost predicate AtIdentity(w: World, q: Run, u: World, x: Run) {
    && Shape(x) && x.phase == Marked(1) && x.req == q.req && u.row.Some? && u.gateway == w.gateway
  }

  lemma FromValidated(w: World, q: Run, env: Env)
    requires Shape(q) && q.phase.Head? && |q.applied| == 1 && w.row.Some?
    ensures InRange(q) && var (u, x) := Advance(w, q, env, true); AtIdentity(w, q, u, x)
  {
    HeadAdvance(w, q, env, true);
    AdvanceShape(w, q, env, true);
  }

  lemma Validates(w: World, q: Run, env: Env)
    requires Shape(q) && q.phase.Head? && q.applied == [] && w.row.Some?
    ensures InRange(q)
    ensures var (w1, q1) := Advance(w, q, env, true);
      var (w2, q2) := Advance(w1, q1, env, true);
      var (w3, q3) := Advance(w2, q2, env, true);
      && q1.phase == Marked(0) && q2.phase == Executed(0) && q3.phase.Head?
      && w3.row.Some? && w3.gateway == w.gateway && q3.req == q.req && Shape(q3) && |q3.applied| == 1
  {
    HeadAdvance(w, q, env, true);
    var (w1, q1) := Advance(w, q, env, true);
    AdvanceShape(w, q, env, true);
    AdvanceShape(w1, q1, env, true);
    var (w2, q2) := Advance(w1, q1, env, true);
    AdvanceShape(w2, q2, env, true);
  }

  lemma ReachesIdentity(w: World, q: Run, env: Env) returns (m: nat)
    requires Shape(q) && q.phase.Head? && |q.applied| < 2 && w.row.Some?
    ensures InRange(q) && m == (if q.applied == [] then 4 else 1)
    ensures var (u, x) := Steps(w, q, env, m); AtIdentity(w, q, u, x)
  {
    if q.applied == [] {
      m := 4;
      Validates(w, q, env);
      OneStep(w, q, env);
      StepsNext(w, q, env, 1, 2);
      StepsNext(w, q, env, 2, 3);
      StepsNext(w, q, env, 3, 4);
      var (w3, q3) := Steps(w, q, env, 3);
      FromValidated(w3, q3, env);
    } else {
      m := 1;
      FromValidated(w, q, env);
      OneStep(w, q, env);
    }
  }

  lemma BeforeIdentity(w: World, r: Run, env: Env, later: Text)
    requires InRange(r) && r.phase != Marked(1) && (r.phase.Marked? ==> r.phase.at == 0)
    ensures Advance(w, r, env, true) == Advance(w, r, env.(collectedAt := later), true)
  {
  }

  lemma SameBeforeIdentity(w: World, q: Run, env: Env, later: Text)
    requires Shape(q) && q.phase.Head? && |q.applied| < 2 && w.row.Some?
    ensures InRange(q)
    ensures var m := if q.applied == [] then 4 else 1;
      Steps(w, q, env, m) == Steps(w, q, env.(collectedAt := later), m)
  {
    var other := env.(collectedAt := later);
    HeadAdvance(w, q, env, true);
    OneStep(w, q, env);
    OneStep(w, q, other);
    BeforeIdentity(w, q, env, later);
    if q.applied == [] {
      Validates(w, q, env);
      var (w1, q1) := Advance(w, q, env, true);
      BeforeIdentity(w1, q1, env, later);
      var (w2, q2) := Advance(w1, q1, env, true);
      BeforeIdentity(w2, q2, env, later);
      var (w3, q3) := Advance(w2, q2, env, true);
      BeforeIdentity(w3, q3, env, later);
      StepsNext(w, q, env, 1, 2);
      StepsNext(w, q, env, 2, 3);
      StepsNext(w, q, env, 3, 4);
      StepsNext(w, q, other, 1, 2);
      StepsNext(w, q, other, 2, 3);
      StepsNext(w, q, other, 3, 4);
    }
  }

  // ---------------------------------------------------------------- to the end

  lemma {:induction false} AppliedStays(w: World, r: Run, env: Env, n: nat)
    requires InRange(r)
    ensures |Steps(w, r, env, n).1.applied| >= |r.applied|
    decreases n
  {
    if n > 0 {
      var (v, q) := Advance(w, r, env, true);
      AppliedStays(v, q, env, n - 1);
    }
  }

  lemma EndingEnds(w: World, r: Run, env: Env)
    requires r.phase.Ending? && w.row.Some?
    ensures var x := Finish(w, r, env).1; x.phase.Done? && x.failure == r.failure && x.applied == r.applied
  {
    var (v, q) := Advance(w, r, env, true);
    StepsCompose(w, r, env, 1, RUN_LENGTH - 1);
    OneStep(w, r, env);
    DoneStays(v, q, env, RUN_LENGTH - 1);
  }

  /** A refusal shows in the end. */
  lemma RefusalShows(w: World, r: Run, u: World, q: Run, env: Env, other: Env)
    requires Shape(r) && Refused(r) && |r.applied| == 1 && w.row.Some? && u.row.Some?
    requires InRange(q) && !Refused(q) && (q.phase.Ending? || |q.applied| == 2)
    ensures !SameEnd(Finish(w, r, env).1, Finish(u, q, other).1)
  {
    EndingEnds(w, r, env);
    if q.phase.Ending? {
      EndingEnds(u, q, other);
    } else {
      AppliedStays(u, q, other, RUN_LENGTH);
    }
  }

  /** The two runs end with the same steps, results, target, failure and state, the same saved row and the same effects;
      their gateways differ at most in the payload kept for IDENTITY. */
  ghost predicate EndAlike(w: World, r: Run, env: Env, u: World, q: Run, other: Env)
    requires InRange(r) && InRange(q)
  {
    var ((v, x), (v', y)) := (Finish(w, r, env), Finish(u, q, other));
    SameEnd(x, y) && v.row == v'.row && SameBut(v.gateway, v'.gateway, IdentityKey(r.req))
  }

  lemma FinishFromHere(w: World, q: Run, env: Env, m: nat, u: World, x: Run)
    requires Consistent(w, q, env) && InRange(q) && (u, x) == Steps(w, q, env, m)
    ensures Consistent(u, x, env) && InRange(x) && Finish(w, q, env) == Finish(u, x, env)
  {
    FinishFrom(w, q, env, m);
    StepsConsistent(w, q, env, m);
  }

  lemma ExecutedFromHere(u: World, x: Run, env: Env)
    requires Consistent(u, x, env) && x.phase == Marked(1)
    ensures var (v, y) := Execute(u, x, 1, env);
      && Shape(y) && v.row == u.row && y.req == x.req && PastIdentity(y) && Finish(u, x, env) == Finish(v, y, env)
  {
    FinishFrom(u, x, env, 1);
    OneStep(u, x, env);
    ExecuteShape(u, x, 1, env);
  }

  lemma AnsweredAlike(u: World, x: Run, env: Env, later: Text)
    requires Consistent(u, x, env) && Consistent(u, x, env.(collectedAt := later)) && x.phase == Marked(1)
    requires Answers(u.gateway, x.req, env.collectedAt) == Answers(u.gateway, x.req, later)
    ensures EndAlike(u, x, env, u, x, env.(collectedAt := later))
  {
    var other := env.(collectedAt := later);
    ExecutedFromHere(u, x, env);
    ExecutedFromHere(u, x, other);
    var ((v, y), (v', y')) := (Execute(u, x, 1, env), Execute(u, x, 1, other));
    if IdentityKey(x.req) in u.gateway.cache {
      IdentityAlike(u, x, env, later);
    } else {
      IdentityFresh(u, x, env, later);
    }
    TwinSteps(v, v', y, env, later, RUN_LENGTH);
  }

  lemma AnsweredApart(u: World, x: Run, env: Env, later: Text)
    requires Consistent(u, x, env) && Consistent(u, x, env.(collectedAt := later)) && x.phase == Marked(1)
    requires Sound(u.gateway) && Answers(u.gateway, x.req, env.collectedAt) != Answers(u.gateway, x.req, later)
    ensures !EndAlike(u, x, env, u, x, env.(collectedAt := later))
  {
    var other := env.(collectedAt := later);
    ExecutedFromHere(u, x, env);
    ExecutedFromHere(u, x, other);
    RefusedExactly(u, x, env);
    RefusedExactly(u, x, other);
    OnlyOneRefused(u, x, env, other);
  }

  /** From right before IDENTITY on, the times make a difference exactly when they get different answers. */
  lemma FromIdentity(u: World, x: Run, env: Env, later: Text)
    requires Consistent(u, x, env) && Consistent(u, x, env.(collectedAt := later)) && x.phase == Marked(1)
    requires Sound(u.gateway)
    ensures EndAlike(u, x, env, u, x, env.(collectedAt := later))
       <==> (Answers(u.gateway, x.req, env.collectedAt) == Answers(u.gateway, x.req, later))
  {
    if Answers(u.gateway, x.req, env.collectedAt) == Answers(u.gateway, x.req, later) {
      AnsweredAlike(u, x, env, later);
    } else {
      AnsweredApart(u, x, env, later);
    }
  }

  lemma OnlyOneRefused(u: World, x: Run, env: Env, other: Env)
    requires Shape(x) && x.phase == Marked(1) && u.row.Some?
    requires var (y, y') := (Execute(u, x, 1, env).1, Execute(u, x, 1, other).1);
      && Refused(y) != Refused(y') && (y.phase.Ending? || |y.applied| == 2) && (y'.phase.Ending? || |y'.applied| == 2)
    ensures var ((v, y), (v', y')) := (Execute(u, x, 1, env), Execute(u, x, 1, other));
      !SameEnd(Finish(v, y, env).1, Finish(v', y', other).1)
  {
    var ((v, y), (v', y')) := (Execute(u, x, 1, env), Execute(u, x, 1, other));
    ExecuteShape(u, x, 1, env);
    ExecuteShape(u, x, 1, other);
    if Refused(y) {
      RefusalShows(v, y, v', y', env, other);
    } else {
      RefusalShows(v', y', v, y, other, env);
    }
  }

  lemma AnyClock(w: World, q: Run, env: Env, later: Text)
    requires Consistent(w, q, env) && q.phase.Head?
    ensures Consistent(w, q, env.(collectedAt := later))
  {
  }

  /** A run that starts from the saved row ends alike at both times exactly when IDENTITY is saved, or the gateway does
      not tell the two calls apart. */
  lemma TimesAlike(w: World, q: Run, env: Env, later: Text)
    requires Consistent(w, q, env) && q.phase.Head? && Sound(w.gateway)
    ensures InRange(q)
    ensures EndAlike(w, q, env, w, q, env.(collectedAt := later))
       <==> (|q.applied| >= 2 || Answers(w.gateway, q.req, env.collectedAt) == Answers(w.gateway, q.req, later))
  {
    var other := env.(collectedAt := later);
    AnyClock(w, q, env, later);
    if |q.applied| >= 2 {
      TwinSteps(w, w, q, env, later, RUN_LENGTH);
    } else {
      var m := ReachesIdentity(w, q, env);
      SameBeforeIdentity(w, q, env, later);
      var (u, x) := Steps(w, q, env, m);
      FinishFromHere(w, q, env, m, u, x);
      FinishFromHere(w, q, other, m, u, x);
      FromIdentity(u, x, env, later);
    }
  }

  // ---------------------------------------------------------------- the theorem

  lemma {:induction false} StepsSound(w: World, r: Run, env: Env, n: nat)
    requires InRange(r) && Sound(w.gateway)
    ensures Sound(Steps(w, r, env, n).0.gateway)
  {
    if n > 0 {
      var before := n - 1;
      StepsSound(w, r, env, before);
      StepsNext(w, r, env, before, n);
      AdvanceSound(Steps(w, r, env, before).0, Steps(w, r, env, before).1, env);
    }
  }

  lemma AdvanceSound(w: World, r: Run, env: Env)
    requires InRange(r) && Sound(w.gateway)
    ensures Sound(Advance(w, r, env, true).0.gateway)
  {
    if r.phase.Marked? && Calls(STEP_ORDER[r.phase.at], r.target) {
      var step := STEP_ORDER[r.phase.at];
      DecideSound(w.gateway, FixtureFor(env, step), env.clock, StepRequest(step, r.req, r.target, env.collectedAt));
    }
  }

  /** Reopened after the cut at another time, the run ends as r, left alone, would have ended. */
  ghost predicate EndsAlikeLater(w: World, r: Run, cut: World, env: Env, later: Text)
    requires InRange(r) && cut.row.Some? && InRange(Load(cut.row.value, r.req))
  {
    EndAlike(w, r, env, cut, Load(cut.row.value, r.req), env.(collectedAt := later))
  }

  /** A run cut off at any await and reopened with the same request at any time ends as if it had been left alone, up to
      the time kept in the IDENTITY payload, exactly when the saved row shows no possible match of that run and IDENTITY is
      not torn: unsaved, with its key taken by the call of just one of the two times. */
  lemma ClockMovedOn(w: World, r: Run, env: Env, later: Text, k: nat)
    requires Consistent(w, r, env) && Sound(w.gateway)
    ensures InRange(r)
    ensures var cut := Steps(w, r, env, k).0;
      && cut.row.Some? && InRange(Load(cut.row.value, r.req))
      && (Binds(r.req.confirmation, r.req.intakeRevisionId, cut.row.value) ==>
            (EndsAlikeLater(w, r, cut, env, later)
             <==> !FoundPossible(r, cut.row.value) && !Torn(cut, r.req, env.collectedAt, later)))
  {
    StepsConsistent(w, r, env, k);
    StepsKeepRequest(w, r, env, k);
    FinishFrom(w, r, env, k);
    StepsSound(w, r, env, k);
    var (cut, stopped) := Steps(w, r, env, k);
    FoundPossibleIsReview(cut, stopped, env);
    if Binds(r.req.confirmation, r.req.intakeRevisionId, cut.row.value) {
      ReopenedLater(cut, stopped, env, later);
    }
  }

  lemma TornMeans(cut: World, req: IntakeRequest, first: Text, later: Text)
    requires cut.row.Some? && Prefix(cut.row.value.appliedSteps)
    ensures Torn(cut, req, first, later) <==>
      |cut.row.value.appliedSteps| < 2 && Answers(cut.gateway, req, first) != Answers(cut.gateway, req, later)
  {
    StepPlaces(cut.row.value.appliedSteps);
    assert STEP_ORDER[1] == Identity;
  }

  lemma SameStart(w: World, r: Run, q: Run, env: Env, u: World, p: Run, other: Env)
    requires InRange(r) && InRange(q) && InRange(p) && r.req == q.req
    requires var ((v, x), (v', y)) := (Finish(w, r, env), Finish(w, q, env)); v == v' && SameEnd(x, y)
    ensures EndAlike(w, r, env, u, p, other) <==> EndAlike(w, q, env, u, p, other)
  {
  }

  lemma ReviewedLater(cut: World, stopped: Run, q: Run, env: Env, later: Text)
    requires Consistent(cut, stopped, env) && InReview(stopped) && q == Load(cut.row.value, stopped.req)
    requires Binds(stopped.req.confirmation, stopped.req.intakeRevisionId, cut.row.value)
    requires Consistent(cut, q, env) && |q.applied| >= 2
    ensures InRange(stopped) && InRange(q) && !EndAlike(cut, stopped, env, cut, q, env.(collectedAt := later))
  {
    ReloadPastReview(cut, stopped, env);
    TwinSteps(cut, cut, q, env, later, RUN_LENGTH);
  }

  lemma ReopenedLater(cut: World, stopped: Run, env: Env, later: Text)
    requires Consistent(cut, stopped, env) && Sound(cut.gateway)
    requires Binds(stopped.req.confirmation, stopped.req.intakeRevisionId, cut.row.value)
    ensures InRange(stopped) && InRange(Load(cut.row.value, stopped.req))
    ensures EndsAlikeLater(cut, stopped, cut, env, later)
       <==> !InReview(stopped) && !Torn(cut, stopped.req, env.collectedAt, later)
  {
    var q := Load(cut.row.value, stopped.req);
    LoadConsistent(cut, stopped, env);
    if InReview(stopped) {
      ReviewedLater(cut, stopped, q, env, later);
    } else {
      TornMeans(cut, stopped.req, env.collectedAt, later);
      TimesAlike(cut, q, env, later);
      ReloadAlike(cut, stopped, env);
      SameStart(cut, stopped, q, env, cut, q, env.(collectedAt := later));
    }
  }

  /** A run that finds the key taken by another call stops at IDENTITY with a conflict. */
  lemma TakenEndsInConflict(w: World, q: Run, env: Env)
    requires Consistent(w, q, env) && q.phase.Head? && |q.applied| < 2 && Sound(w.gateway)
    requires IdentityKey(q.req) in w.gateway.cache && !Answers(w.gateway, q.req, env.collectedAt)
    ensures InRange(q) && var x := Finish(w, q, env).1;
      && x.phase.Done? && x.applied == [ConfirmValidate]
      && x.failure == Some(PartialFailure(Identity, Contract(IdempotencyConflict), false))
  {
    var m := ReachesIdentity(w, q, env);
    var (u, x) := Steps(w, q, env, m);
    FinishFromHere(w, q, env, m, u, x);
    ExecutedFromHere(u, x, env);
    IdentityCached(u, x, env);
    EndingEnds(Execute(u, x, 1, env).0, Execute(u, x, 1, env).1, env);
  }

  // ---------------------------------------------------------------- one's own IDENTITY

  /** If IDENTITY's key is taken, then by the call made at this time. */
  predicate OwnIdentity(g: Gateway, req: IntakeRequest, time: Text) {
    IdentityKey(req) in g.cache ==> Answers(g, req, time)
  }

  lemma PerformOwn(step: StepName, req: IntakeRequest, target: Target, g: Gateway, env: Env)
    requires OwnIdentity(g, req, env.collectedAt)
    ensures OwnIdentity(Perform(step, req, target, g, env).0, req, env.collectedAt)
  {
    if Calls(step, target) && !step.Identity? {
      StepKeysDistinct(req.organizationId, req.intakeRevisionId, step, Identity);
    }
  }

  lemma AdvanceOwn(w: World, r: Run, env: Env)
    requires InRange(r) && OwnIdentity(w.gateway, r.req, env.collectedAt)
    ensures var (v, q) := Advance(w, r, env, true); q.req == r.req && OwnIdentity(v.gateway, r.req, env.collectedAt)
  {
    if r.phase.Marked? {
      PerformOwn(STEP_ORDER[r.phase.at], r.req, r.target, w.gateway, env);
    }
  }

  lemma {:induction false} StepsOwn(w: World, r: Run, env: Env, n: nat)
    requires InRange(r) && OwnIdentity(w.gateway, r.req, env.collectedAt)
    ensures OwnIdentity(Steps(w, r, env, n).0.gateway, r.req, env.collectedAt)
    decreases n
  {
    if n > 0 {
      AdvanceOwn(w, r, env);
      StepsOwn(Advance(w, r, env, true).0, Advance(w, r, env, true).1, env, n - 1);
    }
  }

  /** If nobody else had sent IDENTITY at another time before, it is torn exactly when it is unsaved, its key is taken,
      and the clock has moved. */
  lemma TornExactly(w: World, r: Run, env: Env, later: Text, k: nat)
    requires InRange(r) && OwnIdentity(w.gateway, r.req, env.collectedAt)
    ensures var cut := Steps(w, r, env, k).0;
      cut.row.Some? ==>
      (Torn(cut, r.req, env.collectedAt, later) <==>
       Identity !in cut.row.value.appliedSteps && IdentityKey(r.req) in cut.gateway.cache && later != env.collectedAt)
  {
    StepsOwn(w, r, env, k);
  }
}
