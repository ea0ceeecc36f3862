/** The idempotent gateway: capability check, cache, conflict, application, cache write, log entry. */
module MockGateways {
  import opened Ordering
  import opened CanonicalJson
  import opened Keys
  import opened CallLedgers

  datatype Tier = InboundDefault | InboundReviewer | PrivilegedMerge

  datatype Method =
    | CreateOrMatchLaborProfile
    | UpdateLaborProfile
    | MergeLaborProfiles
    | OpenPlacementCase
    | UpdatePlacementCase
    | ClosePlacementCase
    | RecordInteraction
    | RecordClientInteraction
    | UpdateLaborAvailability
    | CommitSuppression
    | DispatchAuthorizationCheck
    | CreateNextAction
    | UpdateNextAction
    | QueryOutboxDelivery
    | CommitReviewDecision
    | ResolvePossibleMatch
    | SupersedeReviewStatus

  datatype ErrorCode =
    | ValidationError
    | UnresolvedIdentity
    | PolicyRejection
    | VersionConflict
    | IdempotencyConflict
    | AuthenticationRequired
    | Forbidden
    | DependencyUnavailable
    | RateLimited
    | UnknownCommandOutcome

  /** What a scenario does to a call it allows. */
  datatype Outcome<R> = Applies(data: R) | Accepts | Fails(code: ErrorCode)

  datatype Fixture<R> = Fixture(allowedTiers: set<Tier>, allowedMethods: set<Method>, outcome: Outcome<R>)

  /** A call. The digest stands for the payload: equal payloads, and no others, have equal digests. */
  datatype Request<D> = Request(
    organizationId: Text,
    command: Method,
    idempotencyKey: Text,
    tier: Tier,
    commandId: Text,
    correlationId: Text,
    digest: D)

  datatype Operation = Operation(clock: int, number: nat)

  datatype Reply<R> =
    | Applied(commandId: Text, correlationId: Text, data: R)
    | Accepted(commandId: Text, correlationId: Text, operation: Operation)
    | Failed(commandId: Text, correlationId: Text, code: ErrorCode)

  datatype Cached<D, R> = Cached(digest: D, reply: Reply<R>, tier: Tier, command: Method)

  /** A mutation carried out behind the gateway. */
  datatype Effect = Effect(organizationId: Text, command: Method, idempotencyKey: Text, tier: Tier)

  /** The gateway between calls: its cache, how many operation ids it has drawn, and all it has carried out. */
  datatype State<D, R> = State(cache: map<Text, Cached<D, R>>, issued: nat, effects: seq<Effect>)

  function Fresh<D, R>(): State<D, R> {
    State(map[], 0, [])
  }

  // ---------------------------------------------------------------- cache keys

  function MethodLiteral(m: Method): string {
    match m
    case CreateOrMatchLaborProfile => "createOrMatchLaborProfile"
    case UpdateLaborProfile => "updateLaborProfile"
    case MergeLaborProfiles => "mergeLaborProfiles"
    case OpenPlacementCase => "openPlacementCase"
    case UpdatePlacementCase => "updatePlacementCase"
    case ClosePlacementCase => "closePlacementCase"
    case RecordInteraction => "recordInteraction"
    case RecordClientInteraction => "recordClientInteraction"
    case UpdateLaborAvailability => "updateLaborAvailability"
    case CommitSuppression => "commitSuppression"
    case DispatchAuthorizationCheck => "dispatchAuthorizationCheck"
    case CreateNextAction => "createNextAction"
    case UpdateNextAction => "updateNextAction"
    case QueryOutboxDelivery => "queryOutboxDelivery"
    case CommitReviewDecision => "commitReviewDecision"
    case ResolvePossibleMatch => "resolvePossibleMatch"
    case SupersedeReviewStatus => "supersedeReviewStatus"
  }

  function MethodName(m: Method): Text {
    Ascii(MethodLiteral(m))
  }

  /** Length and first letter already tell the method names apart. */
  function MethodCode(m: Method): int {
    match m
    case CreateOrMatchLaborProfile => 25 * 128 + 99
    case UpdateLaborProfile => 18 * 128 + 117
    case MergeLaborProfiles => 18 * 128 + 109
    case OpenPlacementCase => 17 * 128 + 111
    case UpdatePlacementCase => 19 * 128 + 117
    case ClosePlacementCase => 18 * 128 + 99
    case RecordInteraction => 17 * 128 + 114
    case RecordClientInteraction => 23 * 128 + 114
    case UpdateLaborAvailability => 23 * 128 + 117
    case CommitSuppression => 17 * 128 + 99
    case DispatchAuthorizationCheck => 26 * 128 + 100
    case CreateNextAction => 16 * 128 + 99
    case UpdateNextAction => 16 * 128 + 117
    case QueryOutboxDelivery => 19 * 128 + 113
    case CommitReviewDecision => 20 * 128 + 99
    case ResolvePossibleMatch => 20 * 128 + 114
    case SupersedeReviewStatus => 21 * 128 + 115
  }

  lemma MethodNameCode(m: Method)
    ensures MethodName(m) != [] && |MethodName(m)| * 128 + MethodName(m)[0] == MethodCode(m)
  {
  }

  lemma AsciiColonFree(s: string)
    requires ':' !in s
    ensures ColonFree(Ascii(s))
  {
  }

  predicate OnProfileOrPlacement(m: Method) {
    m in {CreateOrMatchLaborProfile, UpdateLaborProfile, MergeLaborProfiles, OpenPlacementCase, UpdatePlacementCase,
          ClosePlacementCase, RecordInteraction, RecordClientInteraction, UpdateLaborAvailability}
  }

  lemma ProfileNamesColonFree(m: Method)
    requires OnProfileOrPlacement(m)
    ensures ColonFree(MethodName(m))
  {
    match m {
      case CreateOrMatchLaborProfile => AsciiColonFree("createOrMatchLaborProfile");
      case UpdateLaborProfile => AsciiColonFree("updateLaborProfile");
      case MergeLaborProfiles => AsciiColonFree("mergeLaborProfiles");
      case OpenPlacementCase => AsciiColonFree("openPlacementCase");
      case UpdatePlacementCase => AsciiColonFree("updatePlacementCase");
      case ClosePlacementCase => AsciiColonFree("closePlacementCase");
      case RecordInteraction => AsciiColonFree("recordInteraction");
      case RecordClientInteraction => AsciiColonFree("recordClientInteraction");
      case UpdateLaborAvailability => AsciiColonFree("updateLaborAvailability");
      case _ =>
    }
  }

  lemma OtherNamesColonFree(m: Method)
    requires !OnProfileOrPlacement(m)
    ensures ColonFree(MethodName(m))
  {
    match m {
      case CommitSuppression => AsciiColonFree("commitSuppression");
      case DispatchAuthorizationCheck => AsciiColonFree("dispatchAuthorizationCheck");
      case CreateNextAction => AsciiColonFree("createNextAction");
      case UpdateNextAction => AsciiColonFree("updateNextAction");
      case QueryOutboxDelivery => AsciiColonFree("queryOutboxDelivery");
      case CommitReviewDecision => AsciiColonFree("commitReviewDecision");
      case ResolvePossibleMatch => AsciiColonFree("resolvePossibleMatch");
      case SupersedeReviewStatus => AsciiColonFree("supersedeReviewStatus");
      case _ =>
    }
  }

  lemma MethodNameColonFree(m: Method)
    ensures ColonFree(MethodName(m))
  {
    if OnProfileOrPlacement(m) {
      ProfileNamesColonFree(m);
    } else {
      OtherNamesColonFree(m);
    }
  }

  lemma MethodCodesDistinct(a: Method, b: Method)
    ensures MethodCode(a) == MethodCode(b) <==> a == b
  {
  }

  function CacheKey(organizationId: Text, m: Method, idempotencyKey: Text): Text {
    Joined(organizationId, Joined(MethodName(m), idempotencyKey))
  }

  /** Within one organization the key tells method and idempotency key apart. */
  lemma KeyWithinOrganization(org: Text, m: Method, k: Text, n: Method, l: Text)
    ensures CacheKey(org, m, k) == CacheKey(org, n, l) <==> m == n && k == l
  {
    if CacheKey(org, m, k) == CacheKey(org, n, l) {
      HeadsNest(org, Joined(MethodName(m), k), org, Joined(MethodName(n), l));
      MethodNameColonFree(m);
      MethodNameColonFree(n);
      JoinedInjective(MethodName(m), k, MethodName(n), l);
      MethodNameCode(m);
      MethodNameCode(n);
      MethodCodesDistinct(m, n);
    }
  }

  /** One organization's calls of a method can be mistaken for another's: its id, a colon and the method name start
      the other id (up to a further colon or its end). */
  predicate Shadows(a: Text, m: Method, b: Text) {
    Joined(a, MethodName(m)) + [COLON] <= b + [COLON]
  }

  /** Two organizations share a cache key for some calls exactly when one shadows the other. */
  lemma KeysAcrossOrganizations(a: Text, m: Method, b: Text)
    requires a != b && |a| <= |b|
    ensures (exists k, n, l :: CacheKey(a, m, k) == CacheKey(b, n, l)) <==> Shadows(a, m, b)
  {
    if k, n, l :| CacheKey(a, m, k) == CacheKey(b, n, l) {
      MethodNameColonFree(m);
      MiddleSwallowed(a, MethodName(m), k, b, Joined(MethodName(n), l));
    }
    if Shadows(a, m, b) {
      var n, l := CreateOrMatchLaborProfile, [];
      var k := MiddleRestored(a, MethodName(m), b, Joined(MethodName(n), l));
      assert CacheKey(a, m, k) == CacheKey(b, n, l);
    }
  }

  /** So ids without a colon are safe, but the schema of organization ids lets colons through. */
  lemma ColonFreeKeys(a: Text, m: Method, k: Text, b: Text, n: Method, l: Text)
    requires ColonFree(a) && ColonFree(b)
    ensures CacheKey(a, m, k) == CacheKey(b, n, l) <==> a == b && m == n && k == l
  {
    JoinedInjective(a, Joined(MethodName(m), k), b, Joined(MethodName(n), l));
    KeyWithinOrganization(a, m, k, n, l);
  }


  // ------------------------------------------- the schema of organization ids allows it

  predicate Alphanumeric(c: CodeUnit) {
    48 <= c <= 57 || 65 <= c <= 90 || 97 <= c <= 122
  }

  /** A letter, a digit, or one of `.`, `_`, `:`, `-`. */
  predicate IdUnit(c: CodeUnit) {
    Alphanumeric(c) || c == 46 || c == 95 || c == COLON || c == 45
  }

  predicate OrganizationIdShape(t: Text) {
    1 <= |t| <= 64 && Alphanumeric(t[0]) && forall i :: 0 <= i < |t| ==> IdUnit(t[i])
  }

  /** Keys may also hold `/` and `+`. */
  predicate IdempotencyKeyShape(t: Text) {
    8 <= |t| <= 256 && Alphanumeric(t[0]) && forall i :: 0 <= i < |t| ==> IdUnit(t[i]) || t[i] == 47 || t[i] == 43
  }

  lemma AsciiAlphanumeric(s: string)
    requires forall c :: c in s ==> 'A' <= c <= 'Z' || 'a' <= c <= 'z'
    ensures forall i :: 0 <= i < |s| ==> Alphanumeric(Ascii(s)[i])
  {
    forall i | 0 <= i < |s|
      ensures Alphanumeric(Ascii(s)[i])
    {
      assert s[i] in s;
    }
  }

  lemma LongerIdShape(a: Text, name: Text)
    requires OrganizationIdShape(a) && |a| + |name| <= 63 && forall i :: 0 <= i < |name| ==> Alphanumeric(name[i])
    ensures OrganizationIdShape(Joined(a, name))
  {
  }

  lemma LongerKeyShape(name: Text, l: Text)
    requires name != [] && |name| + |l| <= 255 && forall i :: 0 <= i < |name| ==> Alphanumeric(name[i])
    requires IdempotencyKeyShape(l)
    ensures IdempotencyKeyShape(Joined(name, l))
  {
  }

  /** Any organization with an id of up to 46 units can be shadowed by another with a well-formed id, so that each
      createOrMatch key of the other, well formed too, is also one of its own openPlacementCase keys. */
  lemma ShadowOfAny(a: Text, l: Text)
    requires OrganizationIdShape(a) && |a| <= 46 && IdempotencyKeyShape(l) && |l| <= 200
    ensures var b, k := Joined(a, MethodName(OpenPlacementCase)), Joined(MethodName(CreateOrMatchLaborProfile), l);
      && OrganizationIdShape(b) && IdempotencyKeyShape(k) && a != b
      && CacheKey(a, OpenPlacementCase, k) == CacheKey(b, CreateOrMatchLaborProfile, l)
  {
    var name, other := MethodName(OpenPlacementCase), MethodName(CreateOrMatchLaborProfile);
    AsciiAlphanumeric(MethodLiteral(OpenPlacementCase));
    AsciiAlphanumeric(MethodLiteral(CreateOrMatchLaborProfile));
    LongerIdShape(a, name);
    LongerKeyShape(other, l);
    assert Joined(Joined(a, name), Joined(other, l)) == Joined(a, Joined(name, Joined(other, l)));
  }

  // ---------------------------------------------------------------- one call

  predicate Privileged(m: Method) {
    m.MergeLaborProfiles? || m.ResolvePossibleMatch? || m.CommitReviewDecision? || m.SupersedeReviewStatus?
  }

  predicate Capable(m: Method, tier: Tier) {
    Privileged(m) ==> tier == PrivilegedMerge
  }

  function KeyOf<D>(req: Request<D>): Text {
    CacheKey(req.organizationId, req.command, req.idempotencyKey)
  }

  function EffectKey(e: Effect): Text {
    CacheKey(e.organizationId, e.command, e.idempotencyKey)
  }

  function EffectOf<D>(req: Request<D>): Effect {
    Effect(req.organizationId, req.command, req.idempotencyKey, req.tier)
  }

  function Failure<D, R>(req: Request<D>, code: ErrorCode): Reply<R> {
    Failed(req.commandId, req.correlationId, code)
  }

  /** applyScenario: the reply, and whether an operation id was drawn. */
  function Scenario<D, R>(f: Fixture<R>, clock: int, issued: nat, req: Request<D>): (Reply<R>, nat) {
    if req.tier !in f.allowedTiers then (Failure(req, Forbidden), issued)
    else if req.command !in f.allowedMethods then (Failure(req, PolicyRejection), issued)
    else
      match f.outcome
      case Applies(data) => (Applied(req.commandId, req.correlationId, data), issued)
      case Accepts => (Accepted(req.commandId, req.correlationId, Operation(clock, issued + 1)), issued + 1)
      case Fails(code) => (Failure(req, code), issued)
  }

  predicate SameCall<D(==), R>(cached: Cached<D, R>, req: Request<D>) {
    cached.digest == req.digest && cached.command == req.command && cached.tier == req.tier
  }

  /** The atomic part of a call: everything up to the log entry. */
  function Decide<D(==), R>(s: State<D, R>, f: Fixture<R>, clock: int, req: Request<D>): (State<D, R>, Reply<R>) {
    if !Capable(req.command, req.tier) then (s, Failure(req, Forbidden))
    else if KeyOf(req) in s.cache then
      (s, if SameCall(s.cache[KeyOf(req)], req) then s.cache[KeyOf(req)].reply else Failure(req, IdempotencyConflict))
    else
      var (reply, issued) := Scenario(f, clock, s.issued, req);
      if reply.Failed? then (s.(issued := issued), reply)
      else (State(s.cache[KeyOf(req) := Cached(req.digest, reply, req.tier, req.command)], issued,
                  s.effects + [EffectOf(req)]), reply)
  }

  // ---------------------------------------------------------------- any run of calls

  datatype Call<D, R> = Call(fixture: Fixture<R>, clock: int, request: Request<D>)

  /** The gateway after the first n calls of a run. */
  function Reached<D(==), R>(s: State<D, R>, calls: seq<Call<D, R>>, n: nat): State<D, R>
    requires n <= |calls|
  {
    if n == 0 then s
    else var c := calls[n - 1]; Decide(Reached(s, calls, n - 1), c.fixture, c.clock, c.request).0
  }

  function ReplyTo<D(==), R>(s: State<D, R>, calls: seq<Call<D, R>>, i: nat): Reply<R>
    requires i < |calls|
  {
    Decide(Reached(s, calls, i), calls[i].fixture, calls[i].clock, calls[i].request).1
  }

  /** How often the effects carry a key. */
  function EffectCount(effects: seq<Effect>, key: Text): nat {
    if effects == [] then 0
    else
      var last := effects[|effects| - 1];
      EffectCount(effects[..|effects| - 1], key) + if EffectKey(last) == key then 1 else 0
  }

  /** What a gateway that started empty looks like: every cached key has exactly one effect, any other key none. */
  ghost predicate Sound<D, R>(s: State<D, R>) {
    && (forall k: Text :: EffectCount(s.effects, k) == if k in s.cache then 1 else 0)
    && (forall i :: 0 <= i < |s.effects| ==> Capable(s.effects[i].command, s.effects[i].tier))
    && (forall k :: k in s.cache ==> !s.cache[k].reply.Failed?)
  }

  predicate SameOperation<R>(a: Reply<R>, b: Reply<R>) {
    a.Accepted? && b.Accepted? && a.operation == b.operation
  }

  /** No two cached replies name the same operation. */
  ghost predicate OperationsApart<D, R>(s: State<D, R>) {
    && (forall k :: k in s.cache && s.cache[k].reply.Accepted? ==> s.cache[k].reply.operation.number <= s.issued)
    && (forall k, l :: k in s.cache && l in s.cache && SameOperation(s.cache[k].reply, s.cache[l].reply) ==> k == l)
  }

  lemma DecideSound<D, R>(s: State<D, R>, f: Fixture<R>, clock: int, req: Request<D>)
    requires Sound(s)
    ensures Sound(Decide(s, f, clock, req).0)
  {
    var e := EffectOf(req);
    assert (s.effects + [e])[..|s.effects|] == s.effects;
    assert forall k: Text :: EffectCount(s.effects + [e], k) == EffectCount(s.effects, k) + if EffectKey(e) == k then 1 else 0;
  }

  lemma DecideOperationsApart<D, R>(s: State<D, R>, f: Fixture<R>, clock: int, req: Request<D>)
    requires OperationsApart(s)
    ensures OperationsApart(Decide(s, f, clock, req).0)
  {
  }

  ghost predicate AllSound<D, R>(s: State<D, R>) {
    Sound(s) && OperationsApart(s)
  }

  lemma CallKeepsSound<D, R>(s: State<D, R>, c: Call<D, R>)
    requires AllSound(s)
    ensures AllSound(Decide(s, c.fixture, c.clock, c.request).0)
  {
    DecideSound(s, c.fixture, c.clock, c.request);
    DecideOperationsApart(s, c.fixture, c.clock, c.request);
  }

  lemma SoundNext<D, R>(s: State<D, R>, calls: seq<Call<D, R>>, k: nat, n: nat)
    requires n == k + 1 <= |calls| && AllSound(Reached(s, calls, k))
    ensures AllSound(Reached(s, calls, n))
  {
    CallKeepsSound(Reached(s, calls, k), calls[k]);
  }

  lemma {:induction false} SoundAlong<D, R>(s: State<D, R>, calls: seq<Call<D, R>>, n: nat)
    requires AllSound(s) && n <= |calls|
    ensures AllSound(Reached(s, calls, n))
  {
    if n > 0 {
      var before := n - 1;
      SoundAlong(s, calls, before);
      SoundNext(s, calls, before, n);
    }
  }

  /** Over any run from an empty gateway no key, hence no organization, method and idempotency key, has more than one
      effect, and a key has one exactly when it is cached; privileged methods take effect in the privileged tier only; operation ids are never reused. */
  lemma EffectsAtMostOnce<D, R>(calls: seq<Call<D, R>>, n: nat)
    requires n <= |calls|
    ensures Sound(Reached(Fresh(), calls, n)) && OperationsApart(Reached(Fresh(), calls, n))
  {
    SoundAlong(Fresh(), calls, n);
  }

  /** A cached result never changes. */
  lemma {:induction false} CacheWriteOnce<D, R>(
      s: State<D, R>, calls: seq<Call<D, R>>, i: nat, j: nat, key: Text)
    requires i <= j <= |calls| && key in Reached(s, calls, i).cache
    ensures key in Reached(s, calls, j).cache && Reached(s, calls, j).cache[key] == Reached(s, calls, i).cache[key]
    decreases j
  {
    if i < j {
      CacheWriteOnce(s, calls, i, j - 1, key);
    }
  }

  lemma DecideCaches<D, R>(s: State<D, R>, f: Fixture<R>, clock: int, req: Request<D>)
    requires !Decide(s, f, clock, req).1.Failed?
    ensures var (t, reply) := Decide(s, f, clock, req);
      KeyOf(req) in t.cache && t.cache[KeyOf(req)] == Cached(req.digest, reply, req.tier, req.command)
  {
  }

  /** A success is cached from then on. */
  lemma SuccessCached<D, R>(s: State<D, R>, calls: seq<Call<D, R>>, i: nat, j: nat)
    requires i < j <= |calls| && !ReplyTo(s, calls, i).Failed?
    ensures var req := calls[i].request;
      && KeyOf(req) in Reached(s, calls, j).cache
      && Reached(s, calls, j).cache[KeyOf(req)] == Cached(req.digest, ReplyTo(s, calls, i), req.tier, req.command)
  {
    DecideCaches(Reached(s, calls, i), calls[i].fixture, calls[i].clock, calls[i].request);
    assert KeyOf(calls[i].request) in Reached(s, calls, i + 1).cache;
    CacheWriteOnce(s, calls, i + 1, j, KeyOf(calls[i].request));
  }

  /** After a success, every call with the same key gets the very same reply if it is the same call, whatever its
      scenario, and an error without any effect otherwise. */
  lemma RepliesAgree<D, R>(s: State<D, R>, calls: seq<Call<D, R>>, i: nat, j: nat)
    requires i < j < |calls| && !ReplyTo(s, calls, i).Failed?
    requires KeyOf(calls[i].request) == KeyOf(calls[j].request)
    ensures Reached(s, calls, j + 1) == Reached(s, calls, j)
    ensures var a, b := calls[i].request, calls[j].request;
      if a.digest == b.digest && a.command == b.command && a.tier == b.tier then
        ReplyTo(s, calls, j) == ReplyTo(s, calls, i)
      else
        ReplyTo(s, calls, j) == Failure(b, if Capable(b.command, b.tier) then IdempotencyConflict else Forbidden)
  {
    SuccessCached(s, calls, i, j);
    CapableSuccess(Reached(s, calls, i), calls[i]);
  }

  lemma CapableSuccess<D, R>(s: State<D, R>, c: Call<D, R>)
    requires !Decide(s, c.fixture, c.clock, c.request).1.Failed?
    ensures Capable(c.request.command, c.request.tier)
  {
  }

  /** A failed call leaves no trace, so a later call may still succeed with another payload. */
  lemma FailuresLeaveNoTrace<D, R>(s: State<D, R>, calls: seq<Call<D, R>>, i: nat)
    requires i < |calls|
    ensures ReplyTo(s, calls, i).Failed? ==> Reached(s, calls, i + 1) == Reached(s, calls, i)
    ensures Reached(s, calls, i + 1).effects != Reached(s, calls, i).effects <==>
      !ReplyTo(s, calls, i).Failed? && KeyOf(calls[i].request) !in Reached(s, calls, i).cache
  {
    var before := Reached(s, calls, i);
    assert |before.effects + [EffectOf(calls[i].request)]| == |before.effects| + 1;
  }

  // ---------------------------------------------------------------- the log

  datatype Status = StatusApplied | StatusAccepted | StatusFailed

  datatype LogEntry<D> = LogEntry(
    request: Request<D>,
    clock: int,
    status: Status,
    errorCode: Option<ErrorCode>,
    cacheHit: bool,
    idempotencyConflict: bool)

  function BuildLogEntry<D, R>(req: Request<D>, clock: int, reply: Reply<R>, hit: bool, conflict: bool): LogEntry<D> {
    match reply
    case Applied(_, _, _) => LogEntry(req, clock, StatusApplied, None, hit, conflict)
    case Accepted(_, _, _) => LogEntry(req, clock, StatusAccepted, None, hit, conflict)
    case Failed(_, _, code) => LogEntry(req, clock, StatusFailed, Some(code), hit, conflict)
  }

  predicate Replays<D(==), R>(s: State<D, R>, req: Request<D>) {
    Capable(req.command, req.tier) && KeyOf(req) in s.cache && SameCall(s.cache[KeyOf(req)], req)
  }

  predicate Conflicts<D(==), R>(s: State<D, R>, req: Request<D>) {
    Capable(req.command, req.tier) && KeyOf(req) in s.cache && !SameCall(s.cache[KeyOf(req)], req)
  }

  function EntryFor<D(==), R>(s: State<D, R>, f: Fixture<R>, clock: int, req: Request<D>): LogEntry<D> {
    BuildLogEntry(req, clock, Decide(s, f, clock, req).1, Replays(s, req), Conflicts(s, req))
  }

  /** The effects a log shows: its successes that did not come from the cache. */
  function Shown<D>(log: seq<LogEntry<D>>): seq<Effect> {
    if log == [] then []
    else
      var last := log[|log| - 1];
      Shown(log[..|log| - 1]) + if last.status.StatusFailed? || last.cacheHit then [] else [EffectOf(last.request)]
  }

  class MockGateway<R> {
    const ledger: CallLedger<LogEntry<Text>, Cached<Text, R>>
    var counter: nat
    ghost var effects: seq<Effect>

    /** The log, were it unbounded, shows exactly what was carried out. */
    ghost predicate Valid()
      reads this, ledger
    {
      ledger.Valid() && Shown(ledger.history) == effects
    }

    ghost function Model(): State<Text, R>
      reads this, ledger
    {
      State(ledger.resultCache, counter, effects)
    }

    constructor (maxEntries: int)
      ensures Valid() && fresh(ledger) && Model() == Fresh() && ledger.history == []
    {
      ledger := new CallLedger(maxEntries);
      counter := 0;
      effects := [];
    }

    /** One call without latency. A payload that cannot be printed makes it throw before anything happens. */
    method Invoke(f: Fixture<R>, clock: int, req: Request<Value>) returns (reply: Option<Reply<R>>)
      requires Valid()
      modifies this, ledger
      ensures Valid()
      ensures match GatewayCanonical(req.digest)
        case None => reply == None && Model() == old(Model()) && ledger.history == old(ledger.history)
        case Some(text) =>
          && (Model(), reply) == (Decide(old(Model()), f, clock, Digested(req, text)).0,
                                  Some(Decide(old(Model()), f, clock, Digested(req, text)).1))
          && ledger.history == old(ledger.history) + [EntryFor(old(Model()), f, clock, Digested(req, text))]
    {
      var digest := GatewayCanonical(req.digest);
      if digest == None {
        return None;
      }
      var call := Digested(req, digest.value);
      var result, hit, conflict := Answer(f, clock, call);
      Log(BuildLogEntry(call, clock, result, hit, conflict));
      return Some(result);
    }

    /** Everything up to the log entry, in one atomic step. */
    method Answer(f: Fixture<R>, clock: int, call: Request<Text>)
      returns (reply: Reply<R>, hit: bool, conflict: bool)
      modifies this, ledger`resultCache
      ensures (Model(), reply) == Decide(old(Model()), f, clock, call)
      ensures hit == Replays(old(Model()), call) && conflict == Conflicts(old(Model()), call)
      ensures effects == old(effects) + if reply.Failed? || hit then [] else [EffectOf(call)]
    {
      var key := KeyOf(call);
      if !Capable(call.command, call.tier) {
        return Failure(call, Forbidden), false, false;
      }
      var cached := ledger.ReadCache(key);
      if cached.Some? {
        if SameCall(cached.value, call) {
          return cached.value.reply, true, false;
        }
        return Failure(call, IdempotencyConflict), false, true;
      }
      var (result, issued) := Scenario(f, clock, counter, call);
      counter := issued;
      if !result.Failed? {
        ledger.WriteCache(key, Cached(call.digest, result, call.tier, call.command));
        effects := effects + [EffectOf(call)];
      }
      return result, false, false;
    }

    method Log(entry: LogEntry<Text>)
      requires ledger.Valid()
      modifies ledger
      ensures ledger.Valid() && ledger.history == old(ledger.history) + [entry]
      ensures ledger.resultCache == old(ledger.resultCache)
      ensures Shown(ledger.history) == Shown(old(ledger.history)) +
          if entry.status.StatusFailed? || entry.cacheHit then [] else [EffectOf(entry.request)]
    {
      ledger.Append(entry);
      assert ledger.history[..|ledger.history| - 1] == old(ledger.history);
    }

    method Reset()
      requires Valid()
      modifies this, ledger
      ensures Valid() && Model() == Fresh() && ledger.history == []
    {
      ledger.Reset();
      counter := 0;
      effects := [];
    }
  }

  /** The call with the digest in the place of its payload. */
  function Digested(req: Request<Value>, digest: Text): (call: Request<Text>)
    ensures call.organizationId == req.organizationId && call.command == req.command && call.tier == req.tier
    ensures call.idempotencyKey == req.idempotencyKey && call.digest == digest
    ensures call.commandId == req.commandId && call.correlationId == req.correlationId
  {
    Request(req.organizationId, req.command, req.idempotencyKey, req.tier, req.commandId, req.correlationId, digest)
  }
}
