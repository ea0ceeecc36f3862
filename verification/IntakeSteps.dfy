/** The five steps of an intake: what each sends to the gateway and what it makes of the reply. */
module IntakeSteps {
  import opened Ordering
  import opened CanonicalJson
  import opened DraftDigest
  import opened MockGateways

  datatype StepName = ConfirmValidate | Identity | Profile | Case | Availability

  const STEP_ORDER: seq<StepName> := [ConfirmValidate, Identity, Profile, Case, Availability]

  function StepLiteral(step: StepName): string {
    match step
    case ConfirmValidate => "CONFIRM_VALIDATE"
    case Identity => "IDENTITY"
    case Profile => "PROFILE"
    case Case => "CASE"
    case Availability => "AVAILABILITY"
  }

  /** A digest a client may send: the SHA-256 hex of some text, or anything else. */
  datatype Digest = Sha(text: Text) | Other(text: Text)

  /** What /^[a-f0-9]{64}$/ accepts. */
  predicate HexDigest(d: Digest) {
    match d
    case Sha(_) => true
    case Other(t) => |t| == 64 && forall i :: 0 <= i < |t| ==> 48 <= t[i] <= 57 || 97 <= t[i] <= 102
  }

  /** What staff confirmed: a draft, and the profile and version it was reviewed against. */
  datatype Confirmation = Confirmation(
    draftRevisionId: Text,
    draftDigest: Digest,
    canonicalId: Option<Text>,
    canonicalVersion: Option<Text>)

  /** A submission; its evidence is already arranged by id. Versions are decimal numerals. */
  datatype IntakeRequest = IntakeRequest(
    organizationId: Text,
    intakeRevisionId: Text,
    fullName: Text,
    phone: Text,
    citizenNumber: Text,
    citizenAddress: Text,
    contactAddress: Option<Text>,
    dob: Option<Text>,
    stage: Text,
    availability: Text,
    availableFromDate: Option<Text>,
    evidenceRefs: seq<Evidence>,
    confirmation: Confirmation,
    draftDigest: Digest,
    provider: Text,
    connectionId: Text,
    externalReference: Text,
    correlationId: Text)

  /** The draft the server recomputes from what was actually sent. */
  function DraftOf(req: IntakeRequest): Draft {
    Draft(req.organizationId, req.intakeRevisionId, req.fullName, req.phone, req.citizenNumber, req.citizenAddress,
          req.stage, req.availability, req.availableFromDate, req.evidenceRefs, req.contactAddress, req.dob,
          req.confirmation.canonicalId, req.confirmation.canonicalVersion)
  }

  function DigestOf(d: Draft): Digest {
    Sha(Print(DraftValue(d)))
  }

  // ---------------------------------------------------------------- calls

  datatype Payload =
    | CreateOrMatch(
        organizationId: Text, fullName: Text, phone: Text, citizenId: Text, citizenAddress: Text, dob: Option<Text>,
        provider: Text, connectionId: Text, collectedAt: Text, externalReference: Text, intakeRevisionId: Text)
    | UpdateProfile(
        organizationId: Text, laborProfileId: Text, expectedVersion: Text, fullName: Text, phone: Text,
        submissionRevisionId: Text)
    | OpenCase(
        organizationId: Text, laborProfileId: Text, intendedStage: Text, availability: Text,
        availableFromDate: Option<Text>, provider: Text, connectionId: Text, intakeRevisionId: Text,
        confirmationDigest: Digest)
    | UpdateAvailability(
        organizationId: Text, laborProfileId: Text, expectedVersion: Text, availability: Text,
        availableFromDate: Option<Text>, provider: Text, connectionId: Text)

  datatype MatchingOutcome = ExactMatch | PossibleMatch | NewProfile

  /** The fields of a reply's data that the steps read. */
  datatype Data = Data(
    matchingOutcome: Option<MatchingOutcome>,
    laborProfileId: Option<Text>,
    version: Option<Text>,
    reviewRef: Option<Text>,
    isNoop: bool,
    canonicalId: Option<Text>,
    currentVersion: Option<Text>,
    newVersion: Option<Text>,
    appliedStage: Option<Text>,
    appliedAvailability: Option<Text>,
    appliedAvailableFromDate: Option<Text>)

  type Gateway = State<Payload, Data>

  /** The scenario each method runs under, the wall clock of the payload, and the gateway's clock. */
  datatype Env = Env(
    identity: Fixture<Data>,
    profile: Fixture<Data>,
    placement: Fixture<Data>,
    availability: Fixture<Data>,
    collectedAt: Text,
    clock: int)

  function FixtureFor(env: Env, step: StepName): Fixture<Data>
    requires !step.ConfirmValidate?
  {
    match step
    case Identity => env.identity
    case Profile => env.profile
    case Case => env.placement
    case Availability => env.availability
  }

  function StepMethod(step: StepName): Method
    requires !step.ConfirmValidate?
  {
    match step
    case Identity => CreateOrMatchLaborProfile
    case Profile => UpdateLaborProfile
    case Case => OpenPlacementCase
    case Availability => UpdateLaborAvailability
  }

  function StepKey(intakeRevisionId: Text, step: StepName): Text {
    Ascii("intake:") + intakeRevisionId + Ascii(":") + Ascii(StepLiteral(step))
  }

  /** An empty string counts as absent. */
  function Truthy(t: Option<Text>): Option<Text> {
    if t == Some([]) then None else t
  }

  function OrElse(t: Option<Text>, other: Text): Text {
    match t
    case Some(v) => v
    case None => other
  }

  /** The profile a run is working on: the confirmed one until a step reports another id or version. */
  datatype Target = Target(id: Option<Text>, version: Option<Text>)

  function StepPayload(step: StepName, req: IntakeRequest, target: Target, collectedAt: Text): Payload
    requires !step.ConfirmValidate?
  {
    match step
    case Identity =>
      CreateOrMatch(req.organizationId, req.fullName, req.phone, req.citizenNumber, req.citizenAddress, Truthy(req.dob),
                    req.provider, req.connectionId, collectedAt, req.externalReference, req.intakeRevisionId)
    case Profile =>
      UpdateProfile(req.organizationId, OrElse(target.id, []), OrElse(target.version, Ascii("0")), req.fullName,
                    req.phone, req.intakeRevisionId)
    case Case =>
      OpenCase(req.organizationId, OrElse(target.id, []), req.stage, req.availability, Truthy(req.availableFromDate),
               req.provider, req.connectionId, req.intakeRevisionId, req.draftDigest)
    case Availability =>
      UpdateAvailability(req.organizationId, OrElse(target.id, []), OrElse(target.version, Ascii("0")),
                         req.availability, Truthy(req.availableFromDate), req.provider, req.connectionId)
  }

  function StepRequest(step: StepName, req: IntakeRequest, target: Target, collectedAt: Text): Request<Payload>
    requires !step.ConfirmValidate?
  {
    Request(req.organizationId, StepMethod(step), StepKey(req.intakeRevisionId, step), InboundDefault,
            Ascii("cmd-") + MethodName(StepMethod(step)), req.correlationId,
            StepPayload(step, req, target, collectedAt))
  }

  /** The gateway's cache key of a step of a revision. */
  function StepCacheKey(organizationId: Text, intakeRevisionId: Text, step: StepName): Text
    requires !step.ConfirmValidate?
  {
    CacheKey(organizationId, StepMethod(step), StepKey(intakeRevisionId, step))
  }

  lemma StepKeysDistinct(org: Text, rev: Text, a: StepName, b: StepName)
    requires !a.ConfirmValidate? && !b.ConfirmValidate?
    ensures StepCacheKey(org, rev, a) == StepCacheKey(org, rev, b) <==> a == b
  {
    KeyWithinOrganization(org, StepMethod(a), StepKey(rev, a), StepMethod(b), StepKey(rev, b));
  }

  // ---------------------------------------------------------------- replies

  datatype StepResult =
    | Validated
    | IdentityResult(
        kind: MatchingOutcome, matchedId: Option<Text>, matchedVersion: Option<Text>, reviewRef: Option<Text>,
        gatewayResponse: Reply<Data>)
    | ProfileApplied(canonicalId: Text, newVersion: Option<Text>)
    | ProfileNoop(canonicalId: Text, currentVersion: Option<Text>)
    | CaseResult(canonicalId: Text, version: Text, appliedStage: Text)
    | AvailabilityResult(
        canonicalId: Text, version: Text, appliedAvailability: Text, appliedAvailableFromDate: Option<Text>)

  datatype FailureCode = Contract(code: ErrorCode) | TransactionFailed

  datatype StepOutcome = Success(result: StepResult) | Failure(code: FailureCode, retryable: bool)

  predicate Retryable(code: ErrorCode) {
    !code.ValidationError? && !code.Forbidden? && !code.IdempotencyConflict?
  }

  /** What a step makes of the reply to its call. ACCEPTED is as good as APPLIED for a profile or an availability,
      but not for an identity or a case, whose data is needed. */
  function Interpret(p: Payload, reply: Reply<Data>): StepOutcome {
    if reply.Failed? then Failure(Contract(reply.code), Retryable(reply.code))
    else
      match p
      case CreateOrMatch(_, _, _, _, _, _, _, _, _, _, _) =>
        if reply.Applied? && reply.data.matchingOutcome.Some? then
          Success(IdentityResult(reply.data.matchingOutcome.value, reply.data.laborProfileId, reply.data.version,
                                 reply.data.reviewRef, reply))
        else
          Failure(Contract(UnknownCommandOutcome), true)
      case UpdateProfile(_, id, _, _, _, _) =>
        if reply.Applied? && reply.data.isNoop then
          Success(ProfileNoop(OrElse(reply.data.canonicalId, id), reply.data.currentVersion))
        else if reply.Applied? then
          Success(ProfileApplied(OrElse(reply.data.canonicalId, id), reply.data.newVersion))
        else
          Success(ProfileApplied(id, None))
      case OpenCase(_, _, stage, _, _, _, _, _, _) =>
        if reply.Applied? && Truthy(reply.data.canonicalId).Some? then
          Success(CaseResult(reply.data.canonicalId.value, OrElse(reply.data.version, Ascii("1")),
                             OrElse(reply.data.appliedStage, stage)))
        else
          Failure(Contract(UnknownCommandOutcome), true)
      case UpdateAvailability(_, id, _, availability, _, _, _) =>
        if reply.Applied? then
          Success(AvailabilityResult(OrElse(reply.data.canonicalId, id), OrElse(reply.data.version, Ascii("1")),
                                     OrElse(reply.data.appliedAvailability, availability),
                                     reply.data.appliedAvailableFromDate))
        else
          Success(AvailabilityResult(id, Ascii("1"), availability, None))
  }

  /** PROFILE, CASE and AVAILABILITY refuse to call without a target; CONFIRM_VALIDATE never calls. */
  predicate Calls(step: StepName, target: Target) {
    step.Identity? || (!step.ConfirmValidate? && Truthy(target.id).Some?)
  }

  /** One step: the gateway afterwards and what came of it. */
  function Perform(step: StepName, req: IntakeRequest, target: Target, g: Gateway, env: Env): (Gateway, StepOutcome) {
    if step.ConfirmValidate? then
      (g, if HexDigest(req.draftDigest) then Success(Validated) else Failure(Contract(ValidationError), false))
    else if !Calls(step, target) then (g, Failure(Contract(ValidationError), false))
    else
      var call := StepRequest(step, req, target, env.collectedAt);
      var (after, reply) := Decide(g, FixtureFor(env, step), env.clock, call);
      (after, Interpret(call.digest, reply))
  }

  /** The target after a step succeeded. */
  function Retarget(target: Target, result: StepResult): Target {
    match result
    case IdentityResult(kind, id, version, _, _) =>
      if kind.PossibleMatch? || id.None? then target
      else Target(id, if version.Some? then version else target.version)
    case ProfileApplied(_, newVersion) => if newVersion.Some? then target.(version := newVersion) else target
    case ProfileNoop(_, current) => if current.Some? then target.(version := current) else target
    case _ => target
  }

  /** Doing a step again right away, with the same payload and scenario, changes nothing and tells the same. */
  lemma RetryIdempotent(step: StepName, req: IntakeRequest, target: Target, g: Gateway, env: Env)
    ensures var (after, outcome) := Perform(step, req, target, g, env);
      Perform(step, req, target, after, env) == (after, outcome)
  {
  }
}
