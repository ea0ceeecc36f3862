/** What the steps send, field by field: over any interleaving the gateway keeps, under a step's key, the data that was
    confirmed. */
module IntakePayloads {
  import opened Ordering
  import opened CanonicalJson
  import opened DraftDigest
  import opened MockGateways
  import opened IntakeSteps
  import opened IntakeRuns
  import opened IntakeBinding
  import opened IntakeInterleaving

  // ---------------------------------------------------------------- keys and payloads, spelled out

  /** organization:method:intake:revision:STEP. */
  function KeyText(org: Text, rev: Text, step: StepName): Text
    requires !step.ConfirmValidate?
  {
    match step
    case Identity => Spelled(org, "createOrMatchLaborProfile", rev, "IDENTITY")
    case Profile => Spelled(org, "updateLaborProfile", rev, "PROFILE")
    case Case => Spelled(org, "openPlacementCase", rev, "CASE")
    case Availability => Spelled(org, "updateLaborAvailability", rev, "AVAILABILITY")
  }

  function Spelled(org: Text, command: string, rev: Text, step: string): Text {
    org + [58] + (Ascii(command) + [58] + (Ascii("intake:") + rev + [58] + Ascii(step)))
  }

  /** An empty text is dropped. */
  predicate Dropped(sent: Option<Text>, given: Option<Text>) {
    if given == Some([]) then sent == None else sent == given
  }

  /** The target the run stands on, with the version 0 where it has none. */
  predicate Aims(id: Text, version: Text, target: Target) {
    target.id == Some(id) && id != [] && (if target.version == None then version == [48] else target.version == Some(version))
  }

  /** The payload of a step holds what was confirmed in draft d, by a request that came from this source. */
  predicate Carries(step: StepName, p: Payload, d: Draft, req: IntakeRequest, target: Target, collectedAt: Text) {
    match step
    case ConfirmValidate => false
    case Identity =>
      && p.CreateOrMatch? && p.organizationId == d.organizationId && p.intakeRevisionId == d.intakeRevisionId
      && p.fullName == d.fullName && p.phone == d.phone
      && p.citizenId == d.citizenNumber && p.citizenAddress == d.citizenAddress && Dropped(p.dob, d.dob)
      && p.provider == req.provider && p.connectionId == req.connectionId
      && p.externalReference == req.externalReference && p.collectedAt == collectedAt
    case Profile =>
      && p.UpdateProfile? && p.organizationId == d.organizationId && p.submissionRevisionId == d.intakeRevisionId
      && p.fullName == d.fullName && p.phone == d.phone && Aims(p.laborProfileId, p.expectedVersion, target)
    case Case =>
      && p.OpenCase? && p.organizationId == d.organizationId && p.intakeRevisionId == d.intakeRevisionId
      && target.id == Some(p.laborProfileId) && p.laborProfileId != []
      && p.intendedStage == d.stage && p.availability == d.availability
      && Dropped(p.availableFromDate, d.availableFromDate)
      && p.provider == req.provider && p.connectionId == req.connectionId && p.confirmationDigest == DigestOf(d)
    case Availability =>
      && p.UpdateAvailability? && p.organizationId == d.organizationId
      && Aims(p.laborProfileId, p.expectedVersion, target)
      && p.availability == d.availability && Dropped(p.availableFromDate, d.availableFromDate)
      && p.provider == req.provider && p.connectionId == req.connectionId
  }

  /** The gateway ran the step under its own scenario: it allowed ordinary intakes this command, and applied or accepted
      it. */
  predicate Allowed(step: StepName, env: Env, entry: Cached<Payload, Data>) {
    match step
    case ConfirmValidate => false
    case Identity => entry.command == CreateOrMatchLaborProfile && Ran(env.identity, entry)
    case Profile => entry.command == UpdateLaborProfile && Ran(env.profile, entry)
    case Case => entry.command == OpenPlacementCase && Ran(env.placement, entry)
    case Availability => entry.command == UpdateLaborAvailability && Ran(env.availability, entry)
  }

  predicate Ran(f: Fixture<Data>, entry: Cached<Payload, Data>) {
    && entry.reply.commandId == Ascii("cmd-") + MethodName(entry.command)
    && entry.tier == InboundDefault && InboundDefault in f.allowedTiers && entry.command in f.allowedMethods
    && ((entry.reply.Applied? && f.outcome == Applies(entry.reply.data)) || (entry.reply.Accepted? && f.outcome.Accepts?))
  }

  lemma KeyIs(org: Text, rev: Text, step: StepName)
    requires !step.ConfirmValidate?
    ensures StepCacheKey(org, rev, step) == KeyText(org, rev, step)
  {
    match step {
      case Identity => SpelledKey(org, rev, Identity, "createOrMatchLaborProfile", "IDENTITY");
      case Profile => SpelledKey(org, rev, Profile, "updateLaborProfile", "PROFILE");
      case Case => SpelledKey(org, rev, Case, "openPlacementCase", "CASE");
      case Availability => SpelledKey(org, rev, Availability, "updateLaborAvailability", "AVAILABILITY");
    }
  }

  lemma SpelledKey(org: Text, rev: Text, step: StepName, command: string, name: string)
    requires !step.ConfirmValidate? && MethodLiteral(StepMethod(step)) == command && StepLiteral(step) == name
    ensures StepCacheKey(org, rev, step) == Spelled(org, command, rev, name)
  {
    assert Ascii(":") == [58];
  }

  // ---------------------------------------------------------------- one step

  lemma VersionZero()
    ensures Ascii("0") == [48]
  {
  }

  /** What a run of draft d sends. */
  lemma SendsConfirmed(step: StepName, req: IntakeRequest, target: Target, collectedAt: Text)
    requires !step.ConfirmValidate? && Calls(step, target) && req.draftDigest == DigestOf(DraftOf(req))
    ensures Carries(step, StepPayload(step, req, target, collectedAt), DraftOf(req), req, target, collectedAt)
  {
    VersionZero();
  }

  /** A step's call puts an entry under its own key only, the one it sent. */
  lemma PerformPuts(step: StepName, req: IntakeRequest, target: Target, g: Gateway, env: Env, key: Text)
    requires !step.ConfirmValidate? && Calls(step, target) && key !in g.cache && req.draftDigest == DigestOf(DraftOf(req))
    requires key in Perform(step, req, target, g, env).0.cache
    ensures key == KeyText(req.organizationId, req.intakeRevisionId, step)
    ensures var entry := Perform(step, req, target, g, env).0.cache[key];
      Carries(step, entry.digest, DraftOf(req), req, target, env.collectedAt) && Allowed(step, env, entry)
  {
    SendsConfirmed(step, req, target, env.collectedAt);
    KeyIs(req.organizationId, req.intakeRevisionId, step);
  }

  lemma KeyTextDistinct(org: Text, rev: Text, a: StepName, b: StepName)
    requires !a.ConfirmValidate? && !b.ConfirmValidate?
    ensures KeyText(org, rev, a) == KeyText(org, rev, b) <==> a == b
  {
    KeyIs(org, rev, a);
    KeyIs(org, rev, b);
    StepKeysDistinct(org, rev, a, b);
  }

  // ---------------------------------------------------------------- all runs are bound to one draft

  ghost predicate RunBound(digest: Digest, r: Run) {
    ValidDraft(DraftOf(r.req)) && r.req.draftDigest == digest && digest == DigestOf(DraftOf(r.req))
  }

  /** Every run ever let in confirmed the draft of the saved row. */
  ghost predicate Bound(s: System) {
    && (s.runs != [] ==> s.world.row.Some?)
    && forall i :: 0 <= i < |s.runs| ==> RunBound(s.world.row.value.draftDigest, s.runs[i])
  }

  /** Versions come as numerals. */
  ghost predicate Numbered(events: seq<Event>) {
    forall k :: 0 <= k < |events| && events[k].Enter? ==> ValidDraft(DraftOf(events[k].req))
  }

  lemma MoveKeepsRequest(w: World, r: Run, e: Event)
    requires InRange(r) && (e.Move? || e.Lose? || e.Stop?)
    ensures MoveRun(w, r, e).1.req == r.req
  {
  }

  lemma NextBound(s: System, e: Event)
    requires Healthy(s) && AllInRange(s) && Bound(s) && (e.Enter? ==> ValidDraft(DraftOf(e.req)))
    ensures Bound(Next(s, e))
  {
    if e.Enter? {
      EnterBound(s, e);
    } else {
      if s.world.row.Some? {
        NextKeepsDigest(s, e);
      }
      if !e.Outside? && e.run < |s.runs| {
        MoveKeepsRequest(s.world, s.runs[e.run], e);
      }
    }
  }

  lemma EnterBound(s: System, e: Event)
    requires AllInRange(s) && Bound(s) && e.Enter? && ValidDraft(DraftOf(e.req))
    ensures Bound(Next(s, e))
  {
    AdmitBound(s.world, e.req, e.entry);
  }

  lemma AdmitBound(w: World, req: IntakeRequest, entry: Entry)
    requires ValidDraft(DraftOf(req))
    ensures var (v, a) := Admit(w, req, entry);
      && (w.row.Some? ==> v.row == w.row)
      && (a.Admitted? ==> v.row.Some? && RunBound(v.row.value.draftDigest, a.run))
  {
  }

  lemma {:induction false} PlayedExtends(s: System, events: seq<Event>)
    requires Healthy(s)
    ensures Extends(s.world.gateway, Played(s, events).world.gateway)
    decreases |events|
  {
    if events != [] {
      NextHealthy(s, events[0]);
      NextExtends(s, events[0]);
      PlayedExtends(Next(s, events[0]), events[1..]);
    }
  }

  lemma EnterCallsNobody(w: World, req: IntakeRequest, entry: Entry)
    ensures Admit(w, req, entry).0.gateway == w.gateway
  {
  }

  lemma NextExtends(s: System, e: Event)
    requires Healthy(s) && AllInRange(s)
    ensures Extends(s.world.gateway, Next(s, e).world.gateway)
  {
    match e {
      case Enter(req, entry) => EnterCallsNobody(s.world, req, entry);
      case Outside(f, clock, call) => CallExtends(s.world.gateway, f, clock, call);
      case _ =>
        if e.run < |s.runs| {
          MoveKept(s.org, s.revision, s.world, s.runs[e.run], e);
        }
    }
  }

  // ---------------------------------------------------------------- the theorem

  /** The run of event k stands before this step and sends what draft d says, to the run's target of that moment. */
  ghost predicate Sends(s: System, e: Event, step: StepName, d: Draft, entry: Cached<Payload, Data>) {
    && (e.Move? || e.Lose?) && e.run < |s.runs|
    && var r := s.runs[e.run];
       && r.phase.Marked? && r.phase.at < |STEP_ORDER| && STEP_ORDER[r.phase.at] == step && DraftOf(r.req) == d
       && Carries(step, entry.digest, d, r.req, r.target, e.env.collectedAt) && Allowed(step, e.env, entry)
  }

  /** Somebody else used the key. */
  predicate Foreign(org: Text, rev: Text, e: Event, step: StepName, entry: Cached<Payload, Data>)
    requires !step.ConfirmValidate?
  {
    e.Outside? && KeyOf(e.request) == KeyText(org, rev, step) && entry.digest == e.request.digest
  }

  lemma MovePuts(org: Text, rev: Text, w: World, r: Run, e: Event, step: StepName)
    requires RunHealthy(w.gateway, org, rev, r) && (e.Move? || e.Lose? || e.Stop?) && !step.ConfirmValidate?
    requires r.req.draftDigest == DigestOf(DraftOf(r.req)) && KeyText(org, rev, step) !in w.gateway.cache
    requires InRange(r) && KeyText(org, rev, step) in MoveRun(w, r, e).0.gateway.cache
    ensures (e.Move? || e.Lose?) && r.phase.Marked? && STEP_ORDER[r.phase.at] == step
    ensures var entry := MoveRun(w, r, e).0.gateway.cache[KeyText(org, rev, step)];
      Carries(step, entry.digest, DraftOf(r.req), r.req, r.target, e.env.collectedAt) && Allowed(step, e.env, entry)
  {
    var at := r.phase.at;
    PerformPuts(STEP_ORDER[at], r.req, r.target, w.gateway, e.env, KeyText(org, rev, step));
    KeyTextDistinct(org, rev, STEP_ORDER[at], step);
  }

  lemma PutBy(s: System, e: Event, step: StepName, d: Draft)
    requires Healthy(s) && AllInRange(s) && Bound(s) && !step.ConfirmValidate? && ValidDraft(d)
    requires s.world.row.Some? ==> s.world.row.value.draftDigest == DigestOf(d)
    requires KeyText(s.org, s.revision, step) !in s.world.gateway.cache
    requires KeyText(s.org, s.revision, step) in Next(s, e).world.gateway.cache
    ensures var entry := Next(s, e).world.gateway.cache[KeyText(s.org, s.revision, step)];
      Sends(s, e, step, d, entry) || Foreign(s.org, s.revision, e, step, entry)
  {
    if e.Enter? {
      EnterCallsNobody(s.world, e.req, e.entry);
    } else if !e.Outside? && e.run < |s.runs| {
      MovePuts(s.org, s.revision, s.world, s.runs[e.run], e, step);
      SameDigestSameDraft(DraftOf(s.runs[e.run].req), d);
    }
  }

  lemma NextPlace(s: System, e: Event)
    requires AllInRange(s)
    ensures Next(s, e).org == s.org && Next(s, e).revision == s.revision
  {
  }

  /** The entry under a step's key was put there by event k. */
  ghost predicate PutAt(s: System, events: seq<Event>, k: nat, step: StepName, d: Draft, entry: Cached<Payload, Data>)
    requires Healthy(s) && !step.ConfirmValidate?
  {
    k < |events| &&
    (Sends(Played(s, events[..k]), events[k], step, d, entry) || Foreign(s.org, s.revision, events[k], step, entry))
  }

  lemma PutLater(s: System, events: seq<Event>, k: nat, next: nat, step: StepName, d: Draft, entry: Cached<Payload, Data>)
    requires Healthy(s) && events != [] && !step.ConfirmValidate? && AllInRange(s) && Healthy(Next(s, events[0]))
    requires next == k + 1 && PutAt(Next(s, events[0]), events[1..], k, step, d, entry)
    ensures PutAt(s, events, next, step, d, entry)
  {
    NextPlace(s, events[0]);
    PlayedLater(s, events, k, next);
    assert events[1..][k] == events[next];
  }

  lemma PlayedLater(s: System, events: seq<Event>, k: nat, next: nat)
    requires Healthy(s) && next == k + 1 <= |events| && AllInRange(s) && Healthy(Next(s, events[0]))
    ensures Played(s, events[..next]) == Played(Next(s, events[0]), events[1..][..k])
  {
    assert events[..next][0] == events[0] && events[..next][1..] == events[1..][..k];
  }

  /** Whatever an interleaving leaves under the key of a step that was not there before was put there by a run that sent
      the data confirmed in draft d, to which the checkpoint is bound, for the target it stood on; unless somebody from
      outside used that very key. */
  lemma {:induction false} ConfirmedIsCached(s: System, events: seq<Event>, step: StepName, d: Draft) returns (k: nat)
    requires Healthy(s) && Bound(s) && Numbered(events) && !step.ConfirmValidate? && ValidDraft(d)
    requires var t := Played(s, events); t.world.row.Some? ==> t.world.row.value.draftDigest == DigestOf(d)
    requires KeyText(s.org, s.revision, step) !in s.world.gateway.cache
    requires KeyText(s.org, s.revision, step) in Played(s, events).world.gateway.cache
    ensures PutAt(s, events, k, step, d, Played(s, events).world.gateway.cache[KeyText(s.org, s.revision, step)])
    decreases |events|
  {
    var key, e, rest := KeyText(s.org, s.revision, step), events[0], events[1..];
    NextHealthy(s, e);
    var next := Next(s, e);
    if s.world.row.Some? {
      DigestNeverChanges(s, events);
    }
    if key in next.world.gateway.cache {
      k := 0;
      PutBy(s, e, step, d);
      PlayedExtends(next, rest);
      assert Played(s, events[..0]) == s;
    } else {
      NextBound(s, e);
      NextPlace(s, e);
      var before := ConfirmedIsCached(next, rest, step, d);
      k := before + 1;
      PutLater(s, events, before, k, step, d, Played(s, events).world.gateway.cache[key]);
    }
  }
}
