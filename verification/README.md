# Proved model of the engagement hub's decision logic

The repository mocks a recruiting back office: customers are distributed over staff by weight, staff submissions are
turned into canonical profiles through an idempotent gateway, planning batches and autofill drafts are replay-safe, a
dashboard counts lifecycle rows, and outgoing messages go through an outbox with reconciliation. This project models the
logic of these parts in Dafny and proves what they are for. `dafny verify dfyconfig.toml` covers all of it.

## What is modelled

- **Distribution** (`Ordering`, `Routing`, `SmoothRoundRobin`, `LargestRemainder`, `Distribution`, `RealtimeRun`,
  `BatchRun`, `SourceRun`, `Fallback`, `Simulator`). Both allocators of the routing simulator with integer weights and exact
  fractions: the accumulator law under any history of eligibility, exact shares per cycle, the optimality of the
  largest-remainder plan, the closed forms of a batch run and of source allocation, and the imperative simulation itself
  refined to these.
- **Canonical JSON** (`CanonicalJson`, `JsonParser`, `JsonText`, `DraftDigest`, `DraftText`). The printer used by every digest, undone by a
  parser, so that equal texts mean equal values up to property order; and the canonical draft whose text a confirmation
  is bound to.
- **Gateway** (`Keys`, `CallLedger`, `MockGateway`, `GatewayHistory`). The ring-buffer log, the cache keys and their collisions, and the
  idempotent call: at most one effect per key over any run of calls, the same reply ever after.
- **Intake** (`IntakeSteps`, `IntakeRun`, `IntakeCrash`, `IntakeClock`, `IntakeFaults`, `IntakeOutcomes`,
  `IntakeBinding`, `IntakeInterleaving`, `IntakePayload`, `IntakeReading`, `IntakeOrchestrator`). The five-step saga as a
  machine that moves from await to await. A run may be cut off at any await and reopened, then or at a later time, any number of runs may interleave,
  writes may be refused or taken unheard, and gateway calls may throw, having reached the gateway or not. The
  orchestrator's loop is an imperative method proved to come to what the machine comes to under any such faults.
- **Dashboard** (`Calendar`, `IsoWeek`, `BucketLabels`, `Dashboard`, `DashboardScope`). Bucket labels against the ISO 8601 definition of the week, the
  one-pass aggregation against plain counting, drill-down agreement, and growth.
- **Assistant** (`PlanningLedger`, `PlanningReplay`, `AutofillDrafts`, `AutofillAnswers`). Write-once outcomes, replay, and at-most-once application.
- **Outbox** (`Outbox`, `OutboxStatus`). Every handler that writes an intent's status, the leases included, as one atomic step each.

SHA-256 is taken to be injective: a digest stands for the text or the payload it is computed from. Clocks, random ids and
the scenario of each gateway call are parameters. Fencing tokens are taken never to repeat.

## What the proofs found

Where the code and what is said about it part ways, the model follows the code.

- A checkpoint saved with another profile or version than the confirmed one can never be resumed: the old confirmation
  no longer binds the row and a new one changes the digest (`StuckForever`, `ResumableExactly`). This includes every run
  that created a profile (`OtherProfileIsStuck`), although the header of the orchestrator promises a resume at the failed
  step.
- As wired, every first run ends PARTIAL at PROFILE (`WiredRunStopsAtProfile`).
- After a possible match a crash between the IDENTITY checkpoint and the last write lets the reopened run go on to PROFILE
  (`FaultsThenResume`). The identity payload holds the wall clock: a run reopened later goes wrong exactly when IDENTITY
  was torn apart by the crash, its key taken and its step not saved (`ClockMovedOn`, `TornExactly`).
- The state FAILED is unreachable, since the check it depends on was made before (`OutcomeAnyFaults`). When the
  write after AVAILABILITY fails, PARTIAL holds all five steps (`PartialWithAllSteps`, `AllStepsInPartial`).
- Interleaved runs can overwrite saved progress (`ShrinksExactly`, `ProgressCanShrink`), but runs that enter one by one
  cannot (`OneByOneNeverShrinks`), and effects and results stay single (`OneEffectPerStep`, `ResultsAgree`).
- Organization ids may hold colons, so one organization can be given another's cache entry (`ShadowOfAny`).
- `batchPick` is called a round-robin in its comment; it drains one actor after the other (`FillsInOrder`).
- The sort of chart cells looks stages up under bucket names; the order comes out right because the sort is stable
  (`SortKeepsStages`). The header says unavailable rows are emitted with value 0; the code counts them
  (`UnavailableCounts`).
- Date.UTC takes the years 0 to 99 for 1900 to 1999, so weekly labels are wrong below the ISO year 100
  (`WeeklyLabelIsIso`). Years are not padded in weekly and quarterly labels, so years of different width can sort the
  wrong way round (`WeeklyOrderExactly`, `QuarterlyOrderExactly`), and growth then need not compare the two latest
  periods (`GrowthComparesLatestPeriods`).
- Source allocation hands customers to staff over their period quota (`SourceIgnoresQuota`, `QuotaPassable`), and a staff
  member of weight 0 is served once the others are ahead of their due (`ZeroWeightServed`).
- A planning item asked for twice can be reported APPLIED twice and recorded otherwise (`ReportsPerOccurrence`,
  `ReportAgreesExactly`).
- A draft accepted again after it was applied can never be confirmed again, against the idempotent answer its comment
  promises (`AcceptedAgainNeverConfirms`). Confirming a draft turns to ACCEPTED whatever proposal it was made from, a
  rejected one included, unless it is stale by then (`BecomesAccepted`, `AcceptedSince`).
- The dispatcher says a dispatched intent becomes DISPATCHED; completion writes DELIVERED and nothing writes DISPATCHED
  (`NeverDispatched`). The reporting handler fails an intent on UNKNOWN, which the unknown handler promises not to happen
  (`UnknownReportShutsInvestigation`).

## Model

| member | source | states |
|---|---|---|
| `SmoothRoundRobin.WrrState.constructor` | apps/context-panel/src/routing/simulator.ts:63-70 | a fresh state has one accumulator per staff member, all 0, and the pool-wide total |
| `SmoothRoundRobin.WrrState.EligibleIndices` | apps/context-panel/src/routing/simulator.ts:81-86 | lists exactly the indices that are online, below capacity and below quota, ascending |
| `SmoothRoundRobin.WrrState.AddWeights` | apps/context-panel/src/routing/simulator.ts:89-94 | every listed index gains its staff member's weight, no other accumulator moves |
| `SmoothRoundRobin.WrrState.Largest` | apps/context-panel/src/routing/simulator.ts:96-105 | returns the first listed index that holds the largest accumulator |
| `SmoothRoundRobin.WrrState.Next` | apps/context-panel/src/routing/simulator.ts:77-111 | the in-place pick chooses and charges as the value-level pick does; with nobody eligible nothing changes |
| `SmoothRoundRobin.FirstBestUnique` | apps/context-panel/src/routing/simulator.ts:96-105 | the first eligible index of largest value is the only index with that description |
| `SmoothRoundRobin.PickTotal` | apps/context-panel/src/routing/simulator.ts:87-110 | each pick adds the eligible weight to the accumulator total and takes off the pool-wide total |
| `SmoothRoundRobin.AccumulatorLaw` | apps/context-panel/src/routing/simulator.ts:89-108 | under any history of eligibility an accumulator is (rounds eligible)*weight - W*(times picked) |
| `SmoothRoundRobin.TotalNeverPositive` | apps/context-panel/src/routing/simulator.ts:89-110 | the accumulator total never rises above 0 and only an eligible staff member is ever chosen |
| `SmoothRoundRobin.FullRunBalanced` | apps/context-panel/src/routing/simulator.ts:77-111 | with every positive weight eligible throughout, accumulators sum to 0 and each stays above -W |
| `SmoothRoundRobin.FullRunServes` | apps/context-panel/src/routing/simulator.ts:87-110 | then every round serves somebody, and only somebody with a positive weight |
| `SmoothRoundRobin.FullAccumulator` | apps/context-panel/src/routing/simulator.ts:89-108 | after k such rounds accumulator i is k*w_i - W*c_i |
| `SmoothRoundRobin.ShareBound` | apps/context-panel/src/routing/simulator.ts:77-111 | nobody ever exceeds its share rounded up; weight 0 is never picked |
| `SmoothRoundRobin.LagBound` | apps/context-panel/src/routing/simulator.ts:77-111 | nobody falls behind its share by more than (n-1)(W-1)/W customers |
| `SmoothRoundRobin.ZeroWeightServed` | apps/context-panel/src/routing/simulator.ts:77-111 | under any gates a staff member of weight 0 is picked exactly when it is eligible and every other eligible one has been charged beyond its entitlement by more |
| `SmoothRoundRobin.ExactShares` | apps/context-panel/src/routing/simulator.ts:14-18 | after m*W rounds everybody was picked exactly m*w_i times and all accumulators are back at 0 |
| `SmoothRoundRobin.Periodic` | apps/context-panel/src/routing/simulator.ts:14-18 | while eligibility does not change the picks repeat with period W |
| `LargestRemainder.ComputeQuotaPlan` | apps/context-panel/src/routing/simulator.ts:131-179 | the loop over the sorted plans computes the plan defined by division and ranking |
| `LargestRemainder.PlannedExactly` | apps/context-panel/src/routing/simulator.ts:136-142 | an actor is planned for exactly when a positive weight names it and somebody of that id is online, below maxCapacity and below its quota |
| `LargestRemainder.ClosedAreIgnored` | apps/context-panel/src/routing/simulator.ts:136-142 | so a staff member who is offline, full or out of quota makes no difference to the plan |
| `LargestRemainder.PlanClosedForm` | apps/context-panel/src/routing/simulator.ts:144-176 | each plan is the share of the open actors' total weight rounded down, and one more for the largest fractions, ties by actorId, as far as seats are left, which are fewer than the plans; the negative branch is dead |
| `LargestRemainder.PlanConserves` | apps/context-panel/src/routing/simulator.ts:144-176 | the counts of a plan add up to exactly N |
| `LargestRemainder.QuotaRule` | apps/context-panel/src/routing/simulator.ts:136-176 | every plan is for an open actor with a positive weight and gives it its exact share rounded down or up |
| `LargestRemainder.ExtraSeatsByRank` | apps/context-panel/src/routing/simulator.ts:167-176 | whoever gets more than its exact share has everybody with a larger fraction rounded up too |
| `LargestRemainder.PlanOptimal` | apps/context-panel/src/routing/simulator.ts:113-123 | no allocation of N seats is closer to the exact shares in total distance |
| `LargestRemainder.OrderIndependent` | apps/context-panel/src/routing/simulator.ts:6-12 | with distinct ids the plan does not depend on the order of weights or staff |
| `Distribution.FallbackIsFinal` | apps/context-panel/src/routing/simulator.ts:257-275 | once a customer falls back, every later one does, for the same reason |
| `Distribution.NothingLost` | apps/context-panel/src/routing/simulator.ts:257-275 | assignments followed by the fallback queue are the customers 0..count-1 in order, in every strategy and mode |
| `Distribution.CountersTogether` | apps/context-panel/src/routing/simulator.ts:369-370 | capacity and period counters grow by exactly the customers received, and nothing else of a staff member changes |
| `Distribution.CapacityKept` | apps/context-panel/src/routing/simulator.ts:192-194 | nobody who starts within maxCapacity passes it |
| `Distribution.QuotaKept` | apps/context-panel/src/routing/simulator.ts:196-199 | outside source allocation nobody who starts within a period quota passes it |
| `Distribution.HybridAssignsNobody` | apps/context-panel/src/routing/simulator.ts:353-367 | a hybrid pool assigns nobody |
| `Fallbacks.AssignedHasRoom` | apps/context-panel/src/routing/simulator.ts:306-379 | whoever is given a customer is online with a place free at that moment, and outside source allocation has quota left |
| `Fallbacks.FallsBackExactly` | apps/context-panel/src/routing/simulator.ts:306-367 | a customer falls back exactly when nobody is left to choose, and the reason given is the first that applies to all the staff online |
| `Distribution.TotalsAreGrowth` | apps/context-panel/src/routing/simulator.ts:406-414 | the totals of the assignments are the growth of periodAssignments |
| `Distribution.AggregateAssignments` | apps/context-panel/src/routing/simulator.ts:406-414 | the loop over the assignments counts them per actor |
| `RealtimeRun.RealtimeLedger` | apps/context-panel/src/routing/simulator.ts:77-111 | over a whole simulated run, gates included, accumulators obey the entitlement law and never total above 0 |
| `RealtimeRun.HeadroomSpent` | apps/context-panel/src/routing/simulator.ts:306-379 | every customer received uses up one unit of headroom (capacity left, limited by quota left) |
| `RealtimeRun.GatesLeaveAlone` | apps/context-panel/src/routing/simulator.ts:77-111 | a gated run hands everybody what the run without gates would, and nobody falls back, if and only if everybody starts with that much headroom |
| `RealtimeRun.RealtimeShares` | apps/context-panel/src/routing/simulator.ts:228-275 | with headroom for the rounded-up shares nobody exceeds its own and nobody falls back |
| `RealtimeRun.RealtimeExact` | apps/context-panel/src/routing/simulator.ts:228-275 | after m whole cycles everybody has exactly m times its weight if and only if everybody had headroom for it |
| `BatchRun.PotentialLaw` | apps/context-panel/src/routing/simulator.ts:381-399 | gain plus what a staff member can still get is constant; each customer uses up one until none is left |
| `BatchRun.BatchClosedForm` | apps/context-panel/src/routing/simulator.ts:244-275 | a batch run gives everybody min(planned, headroom); the rest, as a suffix, falls back |
| `BatchRun.FillsInOrder` | apps/context-panel/src/routing/simulator.ts:381-399 | the queue is drained one actor after the other by actorId; it does not rotate |
| `SourceRun.SourceClosedForm` | apps/context-panel/src/routing/simulator.ts:317-338 | source allocation fills the open staff in list order, each with min(room, customers the ones before leave); a customer falls back exactly when all room is used up |
| `SourceRun.SourceIgnoresQuota` | apps/context-panel/src/routing/simulator.ts:317-338 | under source allocation a staff member is over its period cap after k customers exactly when its closed-form gain exceeds what was left of the cap |
| `SourceRun.QuotaPassable` | apps/context-panel/src/routing/simulator.ts:317-338 | some count takes a staff member past its cap exactly when its room exceeds what is left of the cap |
| `Simulator.SimulationRun.constructor` | apps/context-panel/src/routing/simulator.ts:234-255 | a run starts from a copy of the staff and the plan's queue or zero accumulators |
| `Simulator.SimulationRun.BatchPick` | apps/context-panel/src/routing/simulator.ts:381-399 | the scan over the queue finds and charges the first usable entry |
| `Simulator.SimulationRun.AssignOneCustomer` | apps/context-panel/src/routing/simulator.ts:306-379 | one customer in place does what the value-level step does, and returns its slot |
| `Simulator.ServeCustomer` | apps/context-panel/src/routing/simulator.ts:257-275 | one turn of the customer loop extends the slots by one |
| `Simulator.ServeAll` | apps/context-panel/src/routing/simulator.ts:257-275 | the customer loop produces exactly the slots of the run, split into assignments and fallbacks |
| `Simulator.SimulateDistribution` | apps/context-panel/src/routing/simulator.ts:228-299 | the whole simulation, with the caller's staff array outside its frame |
| `Simulator.PlanOfCycles` | apps/context-panel/src/routing/simulator.ts:131-179 | for m whole cycles everybody's planned count is m times its weight |
| `Simulator.ModesAgreeOnCycles` | apps/context-panel/src/routing/simulator.ts:4-19 | realtime and batch each come out exactly, m times the weight, if and only if everybody starts with that much headroom |
| `CanonicalJson.PrintIsPlain` | apps/integration-api/src/orchestrator/digest.ts:25-29 | sorting keys while printing is printing the recursively key-sorted value |
| `CanonicalJson.NormalRepresentable` | apps/integration-api/src/orchestrator/digest.ts:12-31 | key sorting neither adds nor removes anything on which the printer throws |
| `JsonText.UnitSpelled` | apps/integration-api/src/orchestrator/digest.ts:14 | each code unit outside a surrogate pair is spelled as JSON.stringify does: seven short escapes, a backslash, u and four lower-case digits for other controls and lone surrogates, or itself |
| `JsonText.PairSpelled` | apps/integration-api/src/orchestrator/digest.ts:14 | a surrogate pair stays as it is |
| `JsonText.SpelledApart` | apps/integration-api/src/orchestrator/digest.ts:14 | strings are spelled piece by piece, except across a surrogate pair |
| `JsonText.ScalarText` | apps/integration-api/src/orchestrator/digest.ts:12-22 | literals, numbers, strings and empty arrays and objects, spelled out |
| `JsonText.ArrayText` | apps/integration-api/src/orchestrator/digest.ts:22-24 | an array is its items between brackets, with commas between them |
| `JsonText.ObjectText` | apps/integration-api/src/orchestrator/digest.ts:25-29 | an object starts with its least key, quoted, a colon and its value, and goes on with the others |
| `JsonText.PrintWellFormed` | apps/integration-api/src/orchestrator/digest.ts:12-31 | the text of every value is well-formed and free of control characters, so that encoding it for the hash loses nothing |
| `JsonText.NumbersPrintable` | apps/integration-api/src/orchestrator/digest.ts:15-18 | the text of every finite number, exponents included, is printed as it is |
| `JsonText.SendableExactly` | apps/integration-api/src/gateway/mock-gateway.ts:42-58 | the gateway prints exactly the payloads without an undefined array item or a number that is not finite |
| `JsonText.DroppedExactly` | apps/integration-api/src/gateway/mock-gateway.ts:50-56 | of an object it prints exactly the properties that are not undefined |
| `JsonParser.EscapedParses` | apps/integration-api/src/orchestrator/digest.ts:14 | a reader of JSON strings (section 7 of RFC 8259) undoes the string escaping of JSON.stringify, lone surrogates included |
| `JsonParser.RoundTrip` | apps/integration-api/src/orchestrator/digest.ts:12-31 | a parser recovers the key-sorted value from the printed text followed by any suffix that does not continue a numeral |
| `JsonParser.NormalEqualIsEquivalent` | apps/integration-api/src/orchestrator/digest.ts:25-29 | equality after recursive key sorting is equality up to the order of properties |
| `JsonParser.CanonicalInjective` | packages/contracts/src/envelopes.ts:118-133 | two values print alike exactly when they are equal up to the order of properties |
| `JsonParser.CopiesAgree` | apps/integration-api/src/gateway/mock-gateway.ts:42-58 | wherever the other copies print, the gateway's copy prints the same text |
| `JsonParser.GatewayInjective` | apps/integration-api/src/gateway/mock-gateway.ts:60-63 | two payloads have the same digest text exactly when they are equal, undefined properties dropped, up to property order |
| `DraftText.DraftReads` | apps/integration-api/src/orchestrator/digest.ts:64-83 | whoever parses the text a confirmation is bound to finds each field of the draft under its own name, the nested ones included, and nothing else |
| `DraftDigest.DraftBinding` | apps/integration-api/src/orchestrator/digest.ts:64-83 | the text of a canonical draft determines every bound field: equal texts exactly for equal drafts |
| `DraftDigest.EvidenceOrderFree` | apps/integration-api/src/orchestrator/digest.ts:64-83 | with the evidence sorted by id before printing, equal texts mean the same evidence in any order and equal other fields |
| `Keys.JoinedInjective` | apps/integration-api/src/gateway/ledger.ts:59-61 | colon-joined keys are injective when the first part holds no colon |
| `CallLedgers.RingHoldsLatest` | apps/integration-api/src/gateway/ledger.ts:33-42 | after any appends the entries turned by nextIndex are the last min(n, maxEntries), in order, and the total is n; a negative limit works like its absolute value, 0 keeps nothing |
| `CallLedgers.SnapshotInOrder` | apps/integration-api/src/gateway/ledger.ts:44-47 | the snapshot is in call order exactly below capacity or after whole turns of the ring |
| `CallLedgers.CallLedger.constructor` | apps/integration-api/src/gateway/ledger.ts:23-31 | a fresh ledger is empty |
| `CallLedgers.CallLedger.Append` | apps/integration-api/src/gateway/ledger.ts:33-42 | appending keeps the ring the image of its history |
| `CallLedgers.CallLedger.Snapshot` | apps/integration-api/src/gateway/ledger.ts:44-47 | what is read, turned by nextIndex, is the latest history in order |
| `CallLedgers.CallLedger.Reset` | apps/integration-api/src/gateway/ledger.ts:87-92 | empties log, cache and counters |
| `CallLedgers.CallLedger.Size` | apps/integration-api/src/gateway/ledger.ts:94-101 | reports min(n, max), max, cache size and total appends |
| `MockGateways.KeyWithinOrganization` | apps/integration-api/src/gateway/ledger.ts:59-61 | within one organization the cache key tells method and idempotency key apart |
| `MockGateways.KeysAcrossOrganizations` | apps/integration-api/src/gateway/ledger.ts:59-61 | two organizations share a cache key for some calls exactly when one id, a colon and a method name start the other |
| `MockGateways.ColonFreeKeys` | apps/integration-api/src/gateway/ledger.ts:59-61 | cache keys are injective for organization ids without a colon |
| `MockGateways.ShadowOfAny` | packages/contracts/src/primitives.ts:16-36 | the id schemas allow such a clash: any short organization id has a well-formed shadow |
| `MockGateways.EffectsAtMostOnce` | apps/integration-api/src/gateway/mock-gateway.ts:169-280 | over any run of calls a key has an effect exactly once if cached and never otherwise; privileged effects are in the privileged tier; operation ids are not reused |
| `MockGateways.CacheWriteOnce` | apps/integration-api/src/gateway/mock-gateway.ts:201-252 | a cached result never changes |
| `MockGateways.SuccessCached` | apps/integration-api/src/gateway/mock-gateway.ts:246-252 | a success is cached under its own key from then on |
| `MockGateways.RepliesAgree` | apps/integration-api/src/gateway/mock-gateway.ts:201-245 | after a success the same call always gets the same reply, any other call with its key an error and no effect |
| `GatewayHistory.RepliesFollowHistory` | apps/integration-api/src/gateway/mock-gateway.ts:95-252 | over any run of calls each reply follows from the earlier calls: forbidden for a privileged method in another tier, the first reply again or a conflict after a success under the key, else what the scenario says for its tiers and methods |
| `GatewayHistory.LogFollowsHistory` | apps/integration-api/src/gateway/mock-gateway.ts:254-280 | each log entry tells the call, its time, its outcome and error, and whether it was replayed or clashed with an earlier success |
| `MockGateways.MockGateway.constructor` | apps/integration-api/src/gateway/mock-gateway.ts:154-167 | a fresh gateway has no cache, effects or log |
| `MockGateways.MockGateway.Invoke` | apps/integration-api/src/gateway/mock-gateway.ts:169-280 | one call updates cache, counter and log as specified, and throws on an unprintable payload before anything happens |
| `MockGateways.MockGateway.Answer` | apps/integration-api/src/gateway/mock-gateway.ts:178-252 | capability check, cache hit, conflict, application and cache write, with the flags of the log entry |
| `MockGateways.MockGateway.Reset` | apps/integration-api/src/gateway/mock-gateway.ts:286-289 | empties ledger and counter |
| `IntakeSteps.StepKeysDistinct` | apps/integration-api/src/orchestrator/steps.ts:122-124 | the steps of a revision have different cache keys |
| `IntakePayloads.KeyIs` | apps/integration-api/src/orchestrator/steps.ts:122-124 | the key of a step, spelled out: organization, method, intake, revision and step |
| `IntakePayloads.ConfirmedIsCached` | apps/integration-api/src/orchestrator/intake-orchestrator.ts:692-934 | over any interleaving whatever the gateway keeps under a step's key was sent by a run with just the confirmed data, field by field, to the target the run stood on, or by somebody else who used that very key |
| `IntakeReading.ResultsTellReplies` | apps/integration-api/src/orchestrator/intake-orchestrator.ts:692-934 | over any interleaving the result of an applied step, in a run or in the saved row, says what the gateway's reply said, field by field |
| `IntakeReading.TargetsFollow` | apps/integration-api/src/orchestrator/intake-orchestrator.ts:565-606 | over any interleaving each run stands on the confirmed profile and version until its own IDENTITY names another and its own PROFILE reports a new version |
| `IntakeReading.StepFailsExactly` | apps/integration-api/src/orchestrator/intake-orchestrator.ts:681-934 | each way a step fails, with its code and whether trying again makes sense, and no other |
| `IntakeReading.FailureTold` | apps/integration-api/src/orchestrator/intake-orchestrator.ts:556-620 | what a failed step, a call that throws, and a failed write leave as the failure of the run |
| `IntakeReading.DigestBindsRequest` | apps/integration-api/src/orchestrator/intake-orchestrator.ts:289-307 | requests have the same server digest exactly when they agree on everything confirmed |
| `IntakeReading.AdmittedExactly` | apps/integration-api/src/orchestrator/intake-orchestrator.ts:240-283 | who is let in, and who is refused for a different draft |
| `IntakeSteps.RetryIdempotent` | apps/integration-api/src/orchestrator/intake-orchestrator.ts:692-934 | a step done again with the same payload and scenario tells the same and changes nothing |
| `IntakeRuns.NextIsFirstUnapplied` | apps/integration-api/src/orchestrator/intake-orchestrator.ts:536-537 | skipping steps applied before leads to the first unapplied one |
| `IntakeRuns.AdvanceShape` | apps/integration-api/src/orchestrator/intake-orchestrator.ts:498-656 | every stretch of a run, its write taken or refused, keeps its steps a prefix of the step order that extends the loaded one, with results for just these, and its phase in step with them |
| `IntakeRuns.AdvanceWorldShape` | apps/integration-api/src/orchestrator/intake-orchestrator.ts:332-348 | the saved row keeps its shape too |
| `IntakeCrashes.AdvanceConsistent` | apps/integration-api/src/orchestrator/intake-orchestrator.ts:536-656 | the saved row always holds what is needed to redo the interrupted stretch |
| `IntakeCrashes.RunEnds` | apps/integration-api/src/orchestrator/intake-orchestrator.ts:498-656 | every run ends |
| `IntakeCrashes.AlikeSteps` | apps/integration-api/src/orchestrator/intake-orchestrator.ts:498-656 | runs that differ only in what they had loaded go on alike, to the same world |
| `IntakeCrashes.CatchesUp` | apps/integration-api/src/orchestrator/intake-orchestrator.ts:360-368 | a reloaded run reaches the point of the cut some awaits later, the world unchanged |
| `IntakeFaults.FaultsThenResume` | apps/integration-api/src/orchestrator/intake-orchestrator.ts:498-656 | a run that meets any faults, writes refused or wrongly reported failed and calls that throw, is cut off at any await and reopened, ends as an undisturbed one exactly when its row does not already show a possible match it found |
| `IntakeFaults.ManyFaults` | apps/integration-api/src/orchestrator/intake-orchestrator.ts:498-656 | any number of such attempts makes no difference |
| `IntakeClocks.ClockMovedOn` | apps/integration-api/src/orchestrator/steps.ts:156-161 | reopened at any other time the run ends the same, up to the time kept in the IDENTITY payload, if and only if no possible match was saved and IDENTITY is not torn: unsaved with its key taken by the call of just one of the two times |
| `IntakeClocks.TornExactly` | apps/integration-api/src/orchestrator/steps.ts:156-161 | if nobody else sent IDENTITY before, it is torn exactly when it is unsaved, its key is cached and the clock moved |
| `IntakeClocks.TakenEndsInConflict` | apps/integration-api/src/gateway/mock-gateway.ts:201-240 | a run that finds the key taken by another call stops at IDENTITY with IDEMPOTENCY_CONFLICT |
| `IntakeOutcomes.AllTaken` | apps/integration-api/src/orchestrator/intake-orchestrator.ts:498-656 | without faults the stretches are those of the undisturbed run |
| `IntakeOutcomes.OutcomeAnyFaults` | apps/integration-api/src/orchestrator/intake-orchestrator.ts:622-656 | whatever faults it meets a run ends, and once done its row says how: COMPLETED exactly with five steps and no failure, PARTIAL exactly with a failure, REVIEW_PENDING exactly after a possible match of its own and no failure, FAILED never |
| `IntakeOutcomes.StoppedExactly` | apps/integration-api/src/orchestrator/intake-orchestrator.ts:565-606 | a run ends PARTIAL blaming the last step it applied exactly when the write after that step failed and the next, last write went through, whatever other faults there are |
| `IntakeOutcomes.ThrewExactly` | apps/integration-api/src/orchestrator/intake-orchestrator.ts:546-555 | a run throws exactly when a write that starts a step or ends the run fails, whatever other faults there are |
| `IntakeOutcomes.PartialWithAllSteps` | apps/integration-api/src/orchestrator/intake-orchestrator.ts:565-656 | PARTIAL holds all five steps exactly when the write after AVAILABILITY failed and the last one went through; every other PARTIAL misses a step |
| `IntakeOutcomes.AllStepsInPartial` | apps/integration-api/src/orchestrator/intake-orchestrator.ts:565-656 | such a run exists: a first run in which every step succeeds and only that write is refused |
| `IntakeBinding.AdmittedConsistent` | apps/integration-api/src/orchestrator/intake-orchestrator.ts:240-286 | a run is let in only on a row its confirmation binds, and starts from that row |
| `IntakeBinding.CrashEquivalence` | apps/integration-api/src/orchestrator/intake-orchestrator.ts:419-656 | after any faults and a cut at any await the same request is let in exactly when the saved target is the confirmed one, and then ends as an undisturbed run exactly when no possible match was saved |
| `IntakeBinding.SameDigestSameDraft` | apps/integration-api/src/orchestrator/intake-orchestrator.ts:289-307 | equal server digests mean equal drafts, target included |
| `IntakeBinding.StuckForever` | apps/integration-api/src/orchestrator/intake-orchestrator.ts:507-513 | once the saved target differs from the bound one no request is let in, and nothing changes |
| `IntakeBinding.ResumableExactly` | apps/integration-api/src/orchestrator/intake-orchestrator.ts:507-513 | some request is let in exactly when the saved target is the bound one |
| `IntakeBinding.OtherProfileIsStuck` | apps/integration-api/src/orchestrator/intake-orchestrator.ts:575-606 | a run whose IDENTITY found or made another profile than the confirmed one can never be resumed once saved |
| `IntakeBinding.WiredRunStopsAtProfile` | apps/integration-api/src/gateway/scenarios.ts:98-107 | with EXACT_MATCH_SUCCESS for every step a first run always ends PARTIAL at PROFILE, one effect made, and is resumable exactly if the fixture's target had been confirmed |
| `IntakeInterleaving.NextHealthy` | apps/integration-api/src/orchestrator/intake-orchestrator.ts:498-656 | every event of an interleaving keeps the invariant of rows, runs and gateway |
| `IntakeInterleaving.OneEffectPerStep` | apps/integration-api/src/gateway/mock-gateway.ts:169-280 | over any interleaving of runs, resumes, crashes, failing writes, lost replies and other calls each step takes effect at most once, exactly once if anybody counts it as applied |
| `IntakeInterleaving.NeverSentAgain` | apps/integration-api/src/orchestrator/intake-orchestrator.ts:536-537 | a run never sends a step applied when it loaded, and none twice |
| `IntakeInterleaving.ProgressIsPrefix` | apps/integration-api/src/orchestrator/intake-orchestrator.ts:529-567 | saved and local progress is always a prefix of the step order |
| `IntakeInterleaving.ResultsAgree` | apps/integration-api/src/orchestrator/intake-orchestrator.ts:567-572 | no two runs, nor the saved row, disagree on what a step returned |
| `IntakeInterleaving.DigestNeverChanges` | packages/integration-store/src/repos/intake-checkpoint.ts:201-245 | the draft a checkpoint is bound to never changes |
| `IntakeInterleaving.ShrinksExactly` | apps/integration-api/src/orchestrator/intake-orchestrator.ts:546-555 | an event changes the saved list only as a taken write, to the writer's own list, and shortens it exactly when that list is shorter |
| `IntakeInterleaving.OneByOneNeverShrinks` | apps/integration-api/src/orchestrator/intake-orchestrator.ts:498-656 | while runs enter only after the earlier ones ended, threw or were stopped, saved progress never shrinks, refused writes and lost replies included |
| `IntakeOrchestrators.CheckpointStore.constructor` | packages/integration-store/src/repos/intake-checkpoint.ts:111-117 | a fresh store has no rows |
| `IntakeOrchestrators.CheckpointStore.Create` | packages/integration-store/src/repos/intake-checkpoint.ts:131-171 | returns the existing row for the same draft, refuses another draft, else makes the row |
| `IntakeOrchestrators.IntakeOrchestrator.constructor` | apps/integration-api/src/orchestrator/intake-orchestrator.ts:192-198 | a fresh orchestrator over its store and an empty gateway |
| `IntakeOrchestrators.IntakeOrchestrator.LoseStep` | apps/integration-api/src/orchestrator/intake-orchestrator.ts:690-934 | a step whose gateway call throws, sent or not, in place |
| `IntakeOrchestrators.IntakeOrchestrator.TakeCalledStep` | apps/integration-api/src/orchestrator/intake-orchestrator.ts:556-620 | a step whose call goes through and the write after it, which may fail, in place |
| `IntakeOrchestrators.IntakeOrchestrator.TakeStep` | apps/integration-api/src/orchestrator/intake-orchestrator.ts:539-620 | one turn of the loop, whatever becomes of either write and of the call, comes to what the turn of the run comes to |
| `IntakeOrchestrators.IntakeOrchestrator.TakeOrSkip` | apps/integration-api/src/orchestrator/intake-orchestrator.ts:536-620 | a turn or a skip advances the run by at most three awaits |
| `IntakeOrchestrators.IntakeOrchestrator.TakeSteps` | apps/integration-api/src/orchestrator/intake-orchestrator.ts:536-630 | the loop over the steps follows the run, whatever faults it meets, to its last write or to the exception |
| `IntakeOrchestrators.IntakeOrchestrator.ExecuteFromCheckpoint` | apps/integration-api/src/orchestrator/intake-orchestrator.ts:498-656 | for any faults the loop and the final write come to what the run comes to, and touch no other row |
| `IntakeOrchestrators.IntakeOrchestrator.Enter` | apps/integration-api/src/orchestrator/intake-orchestrator.ts:240-283 | admission with the checkpoint made or found |
| `IntakeOrchestrators.IntakeOrchestrator.Submit` | apps/integration-api/src/orchestrator/intake-orchestrator.ts:240-286 | run: admission, then the whole run with any faults |
| `IntakeOrchestrators.IntakeOrchestrator.ResumeWithPayload` | apps/integration-api/src/orchestrator/intake-orchestrator.ts:419-458 | resumeWithPayload: admission of an existing checkpoint, then the whole run with any faults |
| `Calendar.DateInYear` | apps/context-panel/src/dashboard/aggregator.ts:54-55 | the day number of a valid date lies in its year |
| `BucketLabels.Epoch` | apps/context-panel/src/dashboard/aggregator.ts:54-59 | day 0 is 1970-01-01, a Thursday |
| `BucketLabels.DaysCounted` | apps/context-panel/src/dashboard/aggregator.ts:54-59 | day numbers count the days of the Gregorian calendar one by one, month lengths and leap years included |
| `BucketLabels.RoundsToNearest` | apps/context-panel/src/dashboard/aggregator.ts:61 | Math.round, halves upwards |
| `BucketLabels.DailyLabel` | apps/context-panel/src/dashboard/aggregator.ts:42 | a daily label is the date in 4, 2 and 2 digits |
| `BucketLabels.MonthlyLabel` | apps/context-panel/src/dashboard/aggregator.ts:50-52 | a monthly label is its year and month |
| `BucketLabels.QuarterlyLabel` | apps/context-panel/src/dashboard/aggregator.ts:43-49 | a quarterly label is the year and the one quarter whose three months hold the date |
| `BucketLabels.SameQuarterlyLabel` | apps/context-panel/src/dashboard/aggregator.ts:43-49 | two dates share it exactly when they share the year and lie in the same of January to March, April to June, July to September, October to December |
| `BucketLabels.WeeklyLabelReads` | apps/context-panel/src/dashboard/aggregator.ts:53-62 | a weekly label, from ISO year 100 on, is the year of the week's Thursday and how many Thursdays of that year have come |
| `IsoWeek.CodedIsTrue` | apps/context-panel/src/dashboard/aggregator.ts:56-62 | the division inside Math.round is exact and the result is the ISO 8601 week, unless Date.UTC moves the year |
| `IsoWeek.WeekRange` | apps/context-panel/src/dashboard/aggregator.ts:61 | the week number lies in 1..53 |
| `IsoWeek.WeeklyLabelIsIso` | apps/context-panel/src/dashboard/aggregator.ts:53-62 | the label of a date is its ISO week exactly when the year of that week is 100 or later |
| `IsoWeek.SameLabelSameWeek` | apps/context-panel/src/dashboard/aggregator.ts:53-62 | from then on days share a label exactly when they share their Monday |
| `IsoWeek.FirstCenturyMixedUp` | apps/context-panel/src/dashboard/aggregator.ts:55-59 | before that a date is labelled like the one nineteen centuries later |
| `IsoWeek.LabelsInOrder` | apps/context-panel/src/dashboard/aggregator.ts:62 | for four-digit years weekly labels sort as strings the way their weeks follow each other |
| `IsoWeek.WeeklyOrderExactly` | apps/context-panel/src/dashboard/aggregator.ts:62 | from ISO year 100 on weekly labels sort as their weeks exactly when the years are equally wide or the narrower is at most the leading digits of the wider |
| `IsoWeek.QuarterlyOrderExactly` | apps/context-panel/src/dashboard/aggregator.ts:41-48 | quarterly labels sort as their quarters under exactly the same condition, from year 0 on |
| `IsoWeek.BucketOrderExactly` | apps/context-panel/src/dashboard/aggregator.ts:41-63 | labels of every period sort as the periods follow exactly when the years in them do not get in the way |
| `IsoWeek.LabelTellsPeriod` | apps/context-panel/src/dashboard/aggregator.ts:41-63 | two dates share a label exactly when they share the period |
| `Dashboard.Tally` | apps/context-panel/src/dashboard/aggregator.ts:201-212 | the pass over the rows fills the nested maps with exactly the cells the rows call for |
| `Dashboard.Emit` | apps/context-panel/src/dashboard/aggregator.ts:214-256 | the loops over buckets and stages list the cells in insertion and stage order |
| `Dashboard.AggregateChartCells` | apps/context-panel/src/dashboard/aggregator.ts:165-271 | one point per bucket and stage with a row, with count, sources and availability of its rows, ordered by bucket then stage |
| `Dashboard.SortKeepsStages` | apps/context-panel/src/dashboard/aggregator.ts:265-269 | the sort by bucket keeps the stages of a bucket in order although its stage comparison always ties |
| `Dashboard.ChartUnique` | apps/context-panel/src/dashboard/aggregator.ts:142-149 | that description determines the chart |
| `Dashboard.UnavailableCounts` | apps/context-panel/src/dashboard/aggregator.ts:201-212 | a point shows available and unavailable rows together, is never 0, and is marked exactly when one is unavailable |
| `Dashboard.ChartAddsUp` | apps/context-panel/src/dashboard/aggregator.ts:119-131 | over any choice of buckets the values add up to the rows that are not chat-only |
| `DashboardScope.FilteredExactly` | apps/context-panel/src/dashboard/aggregator.ts:81-107 | the filter keeps exactly the rows of the organization, actor, sources, regions and period asked for, in order |
| `DashboardScope.OutOfScopeIgnored` | apps/context-panel/src/dashboard/aggregator.ts:81-107 | rows of other organizations, and all others out of scope, change no chart and no drill-down |
| `DashboardScope.DrilldownLists` | apps/context-panel/src/dashboard/aggregator.ts:397-443 | a drill-down lists and totals exactly the rows in scope of the stage and bucket asked for, in order |
| `DashboardScope.ChartCountsRows` | apps/context-panel/src/dashboard/aggregator.ts:380-443 | a chart's value and its drill-down's sum are the number of rows in scope of that bucket and stage that are not chat-only |
| `Dashboard.DrilldownAgrees` | apps/context-panel/src/dashboard/aggregator.ts:380-443 | drill-down over cells of the same filtered rows is consistent for every snapshot, stage and bucket; without a stage exactly when the bucket holds no countable row |
| `Dashboard.GrowthComparesLastTwo` | apps/context-panel/src/dashboard/aggregator.ts:358-378 | growth compares the greatest bucket present with the greatest of the others, on the rows of each; none with fewer than two |
| `Dashboard.GrowthComparesLatestPeriods` | apps/context-panel/src/dashboard/aggregator.ts:352-378 | on calendar labels these are the two latest periods present exactly when the second latest sorts right against every period present |
| `Dashboard.LatestTwoPresent` | apps/context-panel/src/dashboard/aggregator.ts:352-356 | when growth is computed there are two such periods |
| `Dashboard.GrowthOnFilledLabels` | apps/context-panel/src/dashboard/aggregator.ts:352-378 | where every year fills its label growth compares the two latest periods |
| `PlanningLedger.CommitKeeps` | apps/context-panel/src/assistant/store.ts:380-395 | a commit never overwrites a recorded outcome |
| `PlanningLedger.WriteOnce` | apps/context-panel/src/assistant/store.ts:365-395 | nor does any run of commits |
| `PlanningLedger.AppliedAtMostOnce` | apps/context-panel/src/assistant/service.ts:506-515 | over any run of commits with distinct items an item is reported APPLIED at most once, exactly once if so recorded |
| `PlanningReplays.SaysExactly` | apps/context-panel/src/assistant/service.ts:455-461 | kind and digest of an item are those of the last input that names it |
| `PlanningReplays.DecidedIsReplayed` | apps/context-panel/src/assistant/service.ts:467-539 | an item decided once is answered in every later commit of its batch, whatever came between: applied as skipped with its id, accepted with its operation, failed as failed before, skipped as such; with another digest as a mismatch without any id |
| `PlanningReplays.SimulatedEnds` | apps/context-panel/src/assistant/service.ts:541-546 | of simulated outcomes for a fresh item the caller is told the first and the ledger keeps the last |
| `PlanningReplays.GeneratedKept` | apps/context-panel/src/assistant/service.ts:541-573 | without simulated ones these are the outcomes generated for its first and last place |
| `PlanningReplays.GeneratedOutcome` | apps/context-panel/src/assistant/service.ts:606-665 | which outcome is generated, with which ids and error, by the lengths of the ids and the place |
| `PlanningReplays.GeneratedIsReplayed` | apps/context-panel/src/assistant/service.ts:448-599 | how a generated outcome is answered in every later commit, ids and errors spelled out |
| `PlanningLedger.AnswerOf` | apps/context-panel/src/assistant/service.ts:467-573 | a recorded item is answered from its record, any other by its fresh outcome |
| `PlanningLedger.LaterAnswers` | apps/context-panel/src/assistant/service.ts:410-424 | a recorded item is answered from that record in every later commit, whatever came between |
| `PlanningLedger.AcceptedIsReplayed` | apps/context-panel/src/assistant/service.ts:493-505 | an accepted item keeps its pending operation in every later commit with the same or no digest |
| `PlanningLedger.ReplayIsFixpoint` | apps/context-panel/src/assistant/service.ts:448-599 | an identical second commit records nothing and is answered as every later one |
| `PlanningLedger.EveryItemAnswered` | apps/context-panel/src/assistant/service.ts:567-573 | without simulated outcomes every item is answered, in the caller's order |
| `PlanningLedger.CountsAddUp` | apps/context-panel/src/assistant/service.ts:575-587 | the four summary counts add up to the number of items |
| `PlanningLedger.BatchesIndependent` | apps/context-panel/src/assistant/store.ts:367-378 | batches with different separator-free ids leave each other's records alone |
| `PlanningLedger.BatchesShareExactly` | apps/context-panel/src/assistant/store.ts:377 | two batches share a record for some items exactly when the shorter id and a colon start the other id |
| `PlanningLedger.ReportsPerOccurrence` | apps/context-panel/src/assistant/service.ts:567-573 | for any items and simulated outcomes a fresh item is reported APPLIED once per occurrence if its first fresh outcome is APPLIED, and never otherwise |
| `PlanningLedger.ReportAgreesExactly` | apps/context-panel/src/assistant/service.ts:547-573 | report and ledger agree on a fresh item exactly when its first and last fresh outcomes do |
| `PlanningLedger.OnlyOneCommitReports` | apps/context-panel/src/assistant/service.ts:448-599 | over any run of commits at most one reports an item as APPLIED, so the run does at most once exactly when each commit does |
| `PlanningLedger.DuplicateReportedTwice` | apps/context-panel/src/assistant/service.ts:516-539 | with generated outcomes all occurrences are reported APPLIED exactly when the first place of the fresh id makes the lengths a multiple of 4 |
| `PlanningLedger.DuplicateRecordedOtherwise` | apps/context-panel/src/assistant/service.ts:516-573 | and the ledger agrees exactly when its first and last places are a multiple of 4 apart |
| `PlanningLedger.AssistantStore.constructor` | apps/context-panel/src/assistant/store.ts:35-62 | a fresh store has no batch records |
| `PlanningLedger.AssistantStore.Decide` | apps/context-panel/src/assistant/service.ts:467-539 | the loop over the items splits replays from fresh items |
| `PlanningLedger.AssistantStore.RecordAll` | apps/context-panel/src/assistant/service.ts:547-565 | the loop over the outcomes records them |
| `PlanningLedger.Arrange` | apps/context-panel/src/assistant/service.ts:567-573 | the loop over the requested items orders the answers |
| `PlanningLedger.Summarize` | apps/context-panel/src/assistant/service.ts:575-587 | the summary counts the outcomes |
| `PlanningLedger.AssistantStore.CommitPlanningBatch` | apps/context-panel/src/assistant/service.ts:448-599 | a commit updates ledger and results as specified and summarises them |
| `AutofillDrafts.AppliedAtMostOnce` | apps/context-panel/src/assistant/store.ts:211-284 | over any run of operations a draft is applied at most once, exactly once if the mutation ledger holds it |
| `AutofillDrafts.BecomesAccepted` | apps/context-panel/src/assistant/store.ts:102-281 | whatever its status, a proposal becomes ACCEPTED exactly by a status update or by the confirmation of a draft made from it, unless it is STALE |
| `AutofillDrafts.AcceptedSince` | apps/context-panel/src/assistant/store.ts:102-281 | over any run a proposal ACCEPTED at the end and not so before, say rejected, was turned by one of these since |
| `AutofillAnswers.ConfirmExactly` | apps/context-panel/src/assistant/store.ts:211-284 | who may confirm what, and which refusal each other confirmation gets |
| `AutofillAnswers.UsableExactly` | apps/context-panel/src/assistant/store.ts:102-155 | working on a proposal is refused exactly when the profile has none of this id or the first one is stale |
| `AutofillAnswers.AcceptExactly` | apps/context-panel/src/assistant/store.ts:132-186 | accepting returns the actor's unapplied draft or makes a new one of the fields in order, its digest text spelled out |
| `AutofillAnswers.AlwaysWellMade` | apps/context-panel/src/assistant/store.ts:157-186 | over any run every draft has the first revision, sorted fields, and digest and id of just what it holds |
| `AutofillAnswers.AppliedWasConfirmed` | apps/context-panel/src/assistant/store.ts:211-284 | over any run an applied draft was confirmed as it stands, by its actor or the system, with its revision and digest |
| `AutofillDrafts.AcceptedAgainNeverConfirms` | apps/context-panel/src/assistant/store.ts:162-256 | after the same fields are accepted again once the draft was applied, no confirmation of it ever succeeds, whatever is done in between |
| `AutofillDrafts.RecreatedNeverConfirms` | apps/context-panel/src/assistant/store.ts:250-256 | a draft made again under an applied id stays so, and every confirmation of it fails, for good |
| `AutofillDrafts.NextConsistent` | apps/context-panel/src/assistant/store.ts:211-284 | every operation keeps it so that each applied draft is in the mutation ledger |
| `AutofillDrafts.ReplayExactly` | apps/context-panel/src/assistant/store.ts:231-256 | a repeated confirmation succeeds exactly while the draft was not made again |
| `AutofillDrafts.DraftStore.constructor` | apps/context-panel/src/assistant/store.ts:35-62 | a fresh store has no drafts |
| `AutofillDrafts.DraftStore.UpdateProposalStatus` | apps/context-panel/src/assistant/store.ts:102-124 | sets the status of a known proposal that is not stale |
| `AutofillDrafts.DraftStore.CreateAutofillDraft` | apps/context-panel/src/assistant/store.ts:132-186 | returns the actor's unapplied draft of the same fields or makes one |
| `AutofillDrafts.DraftStore.ConfirmAutofillDraft` | apps/context-panel/src/assistant/store.ts:211-284 | applies an unapplied draft once, replays an applied one, else refuses with the first objection |
| `Outbox.DeliveredHasCause` | apps/integration-api/src/outbox/delivery-reporting.ts:177-199 | an intent that became DELIVERED has been so since an accepted DELIVERED report, a CONFIRMED resolution or its holder's successful completion |
| `Outbox.BecomesDelivered` | packages/integration-store/src/worker/lease.ts:591-603 | these three and nothing else make an intent DELIVERED |
| `Outbox.OneEntryPerIntent` | apps/integration-api/src/outbox/reconciliation.ts:139-149 | an intent has at most one reconciliation entry, whose version is 1 exactly when resolved and 0 otherwise |
| `Outbox.ResolutionIsFinal` | apps/integration-api/src/outbox/reconciliation.ts:294-301 | an entry never goes away and a resolution never changes |
| `OutboxStatuses.StatusExactly` | packages/integration-store/src/worker/lease.ts:282-680 | after any event an intent has the status that event brings it to, in literal statuses for all thirteen events, and otherwise keeps its own |
| `OutboxStatuses.EntryExactly` | apps/integration-api/src/outbox/reconciliation.ts:121-345 | an entry is made, picked up and resolved by its own events, and otherwise left alone |
| `OutboxStatuses.StatusHasCause` | packages/integration-store/src/worker/lease.ts:576-616 | over any run an intent has every status it did not begin with since an event that brings it there |
| `OutboxStatuses.FinalExactly` | apps/integration-api/src/outbox/reconciliation.ts:313-327 | a status is final exactly when it is DELIVERED, FAILED or TERMINAL and the intent has no open entry |
| `OutboxStatuses.ResolvedForGood` | apps/integration-api/src/outbox/reconciliation.ts:313-327 | resolved as CONFIRMED or FAILED an intent is DELIVERED or FAILED over any later run, and can never be claimed again |
| `OutboxStatuses.RetriedIsClaimable` | apps/integration-api/src/outbox/reconciliation.ts:313-327 | resolved as RETRY at any point of a run an intent is PENDING and goes to the next claim under a fresh token, at any time |
| `OutboxStatuses.LeaseHasCause` | packages/integration-store/src/worker/lease.ts:282-389 | over any run a lease runs until what its last claim or extension said |
| `Outbox.DeliveredFinalExactly` | apps/integration-api/src/outbox/reconciliation.ts:323-327 | DELIVERED is final exactly while the intent has no entry still to be resolved |
| `Outbox.CompletedAtMostOnce` | packages/integration-store/src/worker/lease.ts:576-616 | a token is accepted by at most one completion, and never once its lease was taken away |
| `Outbox.NeverDispatched` | packages/integration-store/src/worker/lease.ts:591-602 | no handler ever writes DISPATCHED |
| `Outbox.InvestigationEndedBy` | apps/integration-api/src/outbox/delivery-receipt.ts:143-156 | over any run an investigation that is over was ended by a resolution or a late receipt since |
| `Outbox.UnknownReportShutsInvestigation` | apps/integration-api/src/outbox/delivery-reporting.ts:68-69 | an UNKNOWN event sent to the reporting handler first fails the intent for good: over any later run no investigation opens |
| `Outbox.UnknownHandledOnce` | apps/integration-api/src/outbox/unknown-handler.ts:129-142 | an UNKNOWN event sent to the unknown handler first opens one investigation, and over any later run no second delivery of it changes anything |
| `Outbox.OutboxStore.ProcessEvent` | apps/integration-api/src/outbox/delivery-reporting.ts:158-201 | a report moves the intent as specified or is refused with its current status; DELIVERED for DELIVERED reports only |
| `Outbox.OutboxStore.ProcessReceipt` | apps/integration-api/src/outbox/delivery-receipt.ts:128-159 | acknowledges an intent that is neither acknowledged nor final, says AlreadyProcessed exactly for those that are |
| `Outbox.OutboxStore.CreateReconciliationEntry` | apps/integration-api/src/outbox/reconciliation.ts:121-196 | opens one investigation per intent that is not final, clears its lease, and else refuses for the stated reason, each exactly when it applies |
| `Outbox.OutboxStore.HandleUnknownDelivery` | apps/integration-api/src/outbox/unknown-handler.ts:98-164 | takes UNKNOWN events with a reason only; opens an investigation or names the entry already there; refusals exactly when they apply |
| `Outbox.OutboxStore.MarkAsInvestigating` | apps/integration-api/src/outbox/reconciliation.ts:206-234 | moves a pending entry, refuses an unknown or any other entry, each exactly |
| `Outbox.OutboxStore.ResolveReconciliation` | apps/integration-api/src/outbox/reconciliation.ts:254-345 | resolves an open entry once, sets the intent's status and raises the version by one; each refusal exactly when it applies, in the order of the checks |

## Left out

- Floating point: quotas are compared as exact fractions; in doubles two equal fractions can differ by a rounding error and then rank by it instead of by actorId. The growth percentage is not computed.
- Text of reasons, messages and notes, timestamps, and the seed and summary fields of a simulation result.
- Number formatting: a number is its decimal numeral, so 0 and -0 are one number.
- The hash function itself, UTF-8 encoding, and the sixteen-digit truncation of draft ids (the draft id is any function of its key).
- What `localeCompare` does with ids: `EvidenceOrderFree` holds for any comparison under which only identical evidence ties. Elsewhere drafts and requests come with their evidence arranged.
- A ring buffer whose `maxEntries` is not an integer.
- Latency of gateway calls: with it, log entries of concurrent calls can stand in another order than their applications.
- A draft whose optional intent date is present but undefined, on which the digest throws.
- IntakeOrchestrators.CheckpointStore.Create: a store that refuses to make the checkpoint ends the request before anything happened.
- IntakeFaults.FaultsThenResume: the interrupted and the reopened run meet the same scenarios and gateway clock, and the reopened run is the last and meets no faults (`IntakeFaults.ManyFaults` lets any before it meet them); the time of the payload may differ in `IntakeClocks.ClockMovedOn`, whose runs meet no faults.
- Dashboard.AggregateChartCells: targets, credit policy, reason codes, the options to select stages and to include chat-only rows.
- Preview, DNC handling, the gateway's `readLog` beyond its snapshot, and the in-memory checkpoint store of the context panel beyond what the repository functions do.
- Date strings that are not valid calendar dates with a four-digit year, whose parsing depends on the engine.
- Per-actor aggregation, coverage and means.
- Item kinds of replayed planning items beyond passing them through; provider settings, today and week snapshots, rescheduling.
- Organization scoping of outbox handlers, dead letters, retry schedules and the receipts' own leases; which of several claimable intents is claimed.
- Statement-level races between database reads and writes inside one handler.
- HTTP servers, route handlers, the user interface, configuration, permission tables, the semantic firewall, normalizer, mapping mocks, scrubbers and fixture generators.
