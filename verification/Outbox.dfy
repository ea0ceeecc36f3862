/** Dispatch intents and their reconciliation entries: every handler that writes the status, one atomic step each. */
module Outbox {
  import opened Ordering
  import opened CanonicalJson

  datatype IntentStatus =
    | Pending
    | Leased
    | Dispatched
    | AckReceived
    | Delivered
    | Failed
    | Terminal
    | InvestigationPending

  datatype Intent = Intent(
    status: IntentStatus,
    leaseOwner: Option<Text>,
    leaseExpiresAt: Option<int>,
    fencingToken: Option<Text>)

  datatype Resolution = Confirmed | FailedForGood | Retry

  datatype EntryStatus = PendingInvestigation | Investigating | Resolved(resolution: Resolution)

  datatype Entry = Entry(intentId: Text, status: EntryStatus, aggregateVersion: nat)

  /** Tokens are drawn at random and taken never to repeat: `drawn` holds those used so far. */
  datatype State = State(intents: map<Text, Intent>, entries: map<Text, Entry>, drawn: set<Text>)

  datatype ReportState = Sent | ReportDelivered | ReportFailed | ReportUnknown | Suppressed

  datatype CompletionOutcome = Success | RetryLater | Fail

  datatype Event =
    | Submit(intentId: Text)
    | Claim(intentId: Text, worker: Text, token: Text, now: int, duration: int)
    | Extend(worker: Text, token: Text, now: int, duration: int)
    | Release(worker: Text, token: Text)
    | ReleaseAll(worker: Text)
    | Reclaim(now: int)
    | ResetStuck(intentId: Text, now: int)
    | Complete(worker: Text, token: Text, outcome: CompletionOutcome)
    | Report(intentId: Text, reported: ReportState)
    | Receipt(intentId: Text)
    | Investigate(intentId: Text, entryId: Text)
    | MarkInvestigating(entryId: Text)
    | Resolve(entryId: Text, resolution: Resolution, retryKey: bool, expectedVersion: Option<nat>)

  // ---------------------------------------------------------------- leases

  predicate Holds(i: Intent, worker: Text, token: Text) {
    i.status.Leased? && i.leaseOwner == Some(worker) && i.fencingToken == Some(token)
  }

  predicate Expired(i: Intent, now: int) {
    i.status.Leased? && i.leaseExpiresAt.Some? && i.leaseExpiresAt.value < now
  }

  function Unleased(status: IntentStatus): Intent {
    Intent(status, None, None, None)
  }

  predicate Claimable(i: Intent, now: int) {
    i.status.Pending? && (i.leaseExpiresAt.None? || i.leaseExpiresAt.value <= now)
  }

  function AfterCompletion(outcome: CompletionOutcome): IntentStatus {
    match outcome
    case Success => Delivered
    case RetryLater => Failed
    case Fail => Terminal
  }

  /** What the worker's calls and the sweeps make of one intent. */
  function Swept(i: Intent, e: Event): Intent {
    match e
    case Extend(worker, token, now, duration) =>
      if Holds(i, worker, token) then i.(leaseExpiresAt := Some(now + duration)) else i
    case Release(worker, token) => if Holds(i, worker, token) then Unleased(Pending) else i
    case ReleaseAll(worker) => if i.status.Leased? && i.leaseOwner == Some(worker) then Unleased(Pending) else i
    case Reclaim(now) => if Expired(i, now) then Unleased(Pending) else i
    case Complete(worker, token, outcome) =>
      if Holds(i, worker, token) then Unleased(AfterCompletion(outcome)) else i
    case _ => i
  }

  // ---------------------------------------------------------------- callbacks

  /** UNKNOWN counts as failed here. */
  function MapState(r: ReportState): IntentStatus {
    match r
    case Sent => AckReceived
    case ReportDelivered => Delivered
    case ReportFailed => Failed
    case ReportUnknown => Failed
    case Suppressed => Terminal
  }

  predicate Reportable(s: IntentStatus) {
    s.Dispatched? || s.AckReceived? || s.Pending? || s.Leased?
  }

  predicate Receivable(s: IntentStatus) {
    !s.AckReceived? && !s.Delivered? && !s.Failed? && !s.Terminal?
  }

  predicate Investigable(s: IntentStatus) {
    !s.Delivered? && !s.Failed? && !s.Terminal?
  }

  predicate HasEntry(s: State, intentId: Text) {
    exists k :: k in s.entries && s.entries[k].intentId == intentId
  }

  function ResolvedStatus(r: Resolution): IntentStatus {
    match r
    case Confirmed => Delivered
    case FailedForGood => Failed
    case Retry => Pending
  }

  /** The entry can be resolved this way now. */
  predicate Resolvable(s: State, entryId: Text, r: Resolution, retryKey: bool, expected: Option<nat>) {
    && (r.Retry? ==> retryKey)
    && entryId in s.entries
    && (expected.Some? ==> s.entries[entryId].aggregateVersion == expected.value)
    && !s.entries[entryId].status.Resolved?
    && s.entries[entryId].intentId in s.intents
  }

  function SetStatus(s: State, intentId: Text, status: IntentStatus): State
    requires intentId in s.intents
  {
    s.(intents := s.intents[intentId := s.intents[intentId].(status := status)])
  }

  // ---------------------------------------------------------------- one step

  /** An event that some precondition refuses leaves everything as it was. */
  function Next(s: State, e: Event): State {
    match e
    case Submit(id) => if id in s.intents then s else s.(intents := s.intents[id := Unleased(Pending)])
    case Claim(id, worker, token, now, duration) =>
      if id !in s.intents || token in s.drawn || !Claimable(s.intents[id], now) then s
      else
        State(s.intents[id := Intent(Leased, Some(worker), Some(now + duration), Some(token))], s.entries,
              s.drawn + {token})
    case ResetStuck(id, now) =>
      if id in s.intents && Expired(s.intents[id], now) then s.(intents := s.intents[id := Unleased(Pending)]) else s
    case Report(id, reported) =>
      if id in s.intents && Reportable(s.intents[id].status) then SetStatus(s, id, MapState(reported)) else s
    case Receipt(id) =>
      if id in s.intents && Receivable(s.intents[id].status) then SetStatus(s, id, AckReceived) else s
    case Investigate(id, entryId) =>
      if id !in s.intents || HasEntry(s, id) || entryId in s.entries || !Investigable(s.intents[id].status) then s
      else
        s.(intents := s.intents[id := Unleased(InvestigationPending)],
           entries := s.entries[entryId := Entry(id, PendingInvestigation, 0)])
    case MarkInvestigating(entryId) =>
      if entryId in s.entries && s.entries[entryId].status.PendingInvestigation? then
        s.(entries := s.entries[entryId := s.entries[entryId].(status := Investigating)])
      else s
    case Resolve(entryId, r, retryKey, expected) =>
      if !Resolvable(s, entryId, r, retryKey, expected) then s
      else
        var entry := s.entries[entryId];
        SetStatus(s, entry.intentId, ResolvedStatus(r)).(
          entries := s.entries[entryId := entry.(status := Resolved(r), aggregateVersion := entry.aggregateVersion + 1)])
    case _ => s.(intents := map id | id in s.intents :: Swept(s.intents[id], e))
  }

  function After(s: State, events: seq<Event>, n: nat): State
    requires n <= |events|
  {
    if n == 0 then s else Next(After(s, events, n - 1), events[n - 1])
  }

  // ---------------------------------------------------------------- causes of delivery

  predicate HasStatus(s: State, id: Text, status: IntentStatus) {
    id in s.intents && s.intents[id].status == status
  }

  /** The event is an accepted DELIVERED report, an accepted CONFIRMED resolution, or the successful completion of the
      intent by the worker that holds it. */
  predicate Causes(s: State, e: Event, id: Text) {
    match e
    case Report(i, reported) => i == id && reported.ReportDelivered? && id in s.intents && Reportable(s.intents[id].status)
    case Resolve(k, r, retryKey, expected) =>
      r.Confirmed? && Resolvable(s, k, r, retryKey, expected) && s.entries[k].intentId == id
    case Complete(worker, token, outcome) => outcome.Success? && id in s.intents && Holds(s.intents[id], worker, token)
    case _ => false
  }

  lemma BecomesDelivered(s: State, e: Event, id: Text)
    ensures Causes(s, e, id) ==> HasStatus(Next(s, e), id, Delivered)
    ensures HasStatus(Next(s, e), id, Delivered) ==> HasStatus(s, id, Delivered) || Causes(s, e, id)
  {
  }

  ghost predicate DeliveredFrom(s: State, events: seq<Event>, id: Text, low: nat, high: nat)
    requires high <= |events|
  {
    forall m :: low <= m <= high ==> HasStatus(After(s, events, m), id, Delivered)
  }

  /** Event k was a cause, and the intent has been DELIVERED since, up to n. */
  ghost predicate CausedAt(s: State, events: seq<Event>, id: Text, k: nat, n: nat)
    requires n <= |events|
  {
    k < n && Causes(After(s, events, k), events[k], id) && DeliveredFrom(s, events, id, k + 1, n)
  }

  lemma StillCaused(s: State, events: seq<Event>, id: Text, k: nat, n: nat)
    requires n < |events| && CausedAt(s, events, id, k, n) && HasStatus(After(s, events, n + 1), id, Delivered)
    ensures CausedAt(s, events, id, k, n + 1)
  {
  }

  /** An intent that is DELIVERED, and was not to begin with, has been so ever since some cause of delivery. */
  lemma {:induction false} DeliveredHasCause(s: State, events: seq<Event>, n: nat, id: Text)
    requires n <= |events| && !HasStatus(s, id, Delivered) && HasStatus(After(s, events, n), id, Delivered)
    ensures exists k: nat :: CausedAt(s, events, id, k, n)
  {
    var before := After(s, events, n - 1);
    BecomesDelivered(before, events[n - 1], id);
    if Causes(before, events[n - 1], id) {
      assert CausedAt(s, events, id, n - 1, n);
    } else {
      DeliveredHasCause(s, events, n - 1, id);
      var k: nat :| CausedAt(s, events, id, k, n - 1);
      StillCaused(s, events, id, k, n - 1);
    }
  }

  // ---------------------------------------------------------------- reconciliation entries

  ghost predicate EntriesSound(s: State) {
    && (forall k :: k in s.entries ==> s.entries[k].intentId in s.intents)
    && (forall k, l :: k in s.entries && l in s.entries && s.entries[k].intentId == s.entries[l].intentId ==> k == l)
    && (forall k :: k in s.entries ==>
          s.entries[k].aggregateVersion == if s.entries[k].status.Resolved? then 1 else 0)
  }

  lemma IntentsStay(s: State, e: Event, id: Text)
    requires id in s.intents
    ensures id in Next(s, e).intents
  {
  }

  lemma OpenedSound(s: State, e: Event)
    requires EntriesSound(s) && e.Investigate?
    ensures EntriesSound(Next(s, e))
  {
  }

  lemma NoneOpened(s: State, e: Event, k: Text)
    requires EntriesSound(s) && !e.Investigate? && k in Next(s, e).entries
    ensures k in s.entries && Next(s, e).entries[k].intentId == s.entries[k].intentId
    ensures Next(s, e).entries[k].aggregateVersion == if Next(s, e).entries[k].status.Resolved? then 1 else 0
  {
  }

  lemma NextEntriesSound(s: State, e: Event)
    requires EntriesSound(s)
    ensures EntriesSound(Next(s, e))
  {
    if e.Investigate? {
      OpenedSound(s, e);
    } else {
      forall k | k in Next(s, e).entries
        ensures k in s.entries && Next(s, e).entries[k].intentId == s.entries[k].intentId
        ensures Next(s, e).entries[k].aggregateVersion == if Next(s, e).entries[k].status.Resolved? then 1 else 0
        ensures Next(s, e).entries[k].intentId in Next(s, e).intents
      {
        NoneOpened(s, e, k);
        IntentsStay(s, e, s.entries[k].intentId);
      }
    }
  }

  /** At every point of every run an intent has at most one reconciliation entry, whose version is 1 exactly when it is
      resolved and 0 otherwise. */
  lemma {:induction false} OneEntryPerIntent(s: State, events: seq<Event>, n: nat)
    requires EntriesSound(s) && n <= |events|
    ensures EntriesSound(After(s, events, n))
  {
    if n > 0 {
      OneEntryPerIntent(s, events, n - 1);
      NextEntriesSound(After(s, events, n - 1), events[n - 1]);
    }
  }

  /** An entry never goes away nor moves to another intent, and a resolution never changes. */
  ghost predicate EntryKept(s: State, t: State, k: Text) {
    k in s.entries ==>
      && k in t.entries && t.entries[k].intentId == s.entries[k].intentId
      && (s.entries[k].status.Resolved? ==> t.entries[k] == s.entries[k])
  }

  lemma NextKeepsEntry(s: State, e: Event, k: Text)
    ensures EntryKept(s, Next(s, e), k)
  {
  }

  lemma {:induction false} ResolutionIsFinal(s: State, events: seq<Event>, m: nat, n: nat, k: Text)
    requires m <= n <= |events|
    ensures EntryKept(After(s, events, m), After(s, events, n), k)
    decreases n
  {
    if m < n {
      ResolutionIsFinal(s, events, m, n - 1, k);
      NextKeepsEntry(After(s, events, n - 1), events[n - 1], k);
    }
  }

  // ---------------------------------------------------------------- when DELIVERED is final

  /** The intent has an entry still to be resolved. */
  predicate OpenEntry(s: State, id: Text) {
    exists k :: k in s.entries && s.entries[k].intentId == id && !s.entries[k].status.Resolved?
  }

  lemma ClosedStays(s: State, e: Event, id: Text)
    requires EntriesSound(s) && HasStatus(s, id, Delivered) && !OpenEntry(s, id)
    ensures HasStatus(Next(s, e), id, Delivered) && !OpenEntry(Next(s, e), id)
  {
  }

  lemma {:induction false} ClosedStaysDelivered(s: State, events: seq<Event>, n: nat, id: Text)
    requires EntriesSound(s) && HasStatus(s, id, Delivered) && !OpenEntry(s, id) && n <= |events|
    ensures HasStatus(After(s, events, n), id, Delivered) && !OpenEntry(After(s, events, n), id)
  {
    if n > 0 {
      ClosedStaysDelivered(s, events, n - 1, id);
      OneEntryPerIntent(s, events, n - 1);
      ClosedStays(After(s, events, n - 1), events[n - 1], id);
    }
  }

  /** DELIVERED is final exactly while the intent has no entry still to be resolved. */
  lemma DeliveredFinalExactly(s: State, id: Text)
    requires EntriesSound(s) && HasStatus(s, id, Delivered)
    ensures (forall events: seq<Event> :: HasStatus(After(s, events, |events|), id, Delivered)) <==> !OpenEntry(s, id)
  {
    if OpenEntry(s, id) {
      var k :| k in s.entries && s.entries[k].intentId == id && !s.entries[k].status.Resolved?;
      var events := [Resolve(k, FailedForGood, false, None)];
      assert After(s, events, 1) == Next(After(s, events, 0), events[0]);
      assert !HasStatus(After(s, events, |events|), id, Delivered);
    } else {
      forall events: seq<Event>
        ensures HasStatus(After(s, events, |events|), id, Delivered)
      {
        ClosedStaysDelivered(s, events, |events|, id);
      }
    }
  }

  // ---------------------------------------------------------------- fencing

  /** Some intent is leased under this token. */
  predicate Live(s: State, token: Text) {
    exists id :: id in s.intents && s.intents[id].status.Leased? && s.intents[id].fencingToken == Some(token)
  }

  ghost predicate TokensSound(s: State) {
    && (forall id :: id in s.intents && s.intents[id].fencingToken.Some? ==> s.intents[id].fencingToken.value in s.drawn)
    && (forall i, j :: i in s.intents && j in s.intents && SameToken(s.intents[i], s.intents[j]) ==> i == j)
  }

  predicate SameToken(i: Intent, j: Intent) {
    i.fencingToken.Some? && i.fencingToken == j.fencingToken
  }

  /** Only a claim brings a token in. */
  lemma NoneDrawn(s: State, e: Event, id: Text)
    requires !e.Claim? && id in Next(s, e).intents && Next(s, e).intents[id].fencingToken.Some?
    ensures id in s.intents && s.intents[id].fencingToken == Next(s, e).intents[id].fencingToken
    ensures Next(s, e).drawn == s.drawn
  {
  }

  lemma ClaimSound(s: State, e: Event)
    requires TokensSound(s) && e.Claim?
    ensures TokensSound(Next(s, e))
  {
  }

  lemma NextTokensSound(s: State, e: Event)
    requires TokensSound(s)
    ensures TokensSound(Next(s, e))
  {
    if e.Claim? {
      ClaimSound(s, e);
    } else {
      forall id | id in Next(s, e).intents && Next(s, e).intents[id].fencingToken.Some?
        ensures id in s.intents && s.intents[id].fencingToken == Next(s, e).intents[id].fencingToken
        ensures Next(s, e).drawn == s.drawn
      {
        NoneDrawn(s, e, id);
      }
    }
  }

  /** The completion is accepted: an intent is held under just this token by this worker. */
  predicate Accepts(s: State, e: Event, token: Text) {
    e.Complete? && e.token == token && exists id :: id in s.intents && Holds(s.intents[id], e.worker, token)
  }

  /** A token drawn before and not live now is dead for good. */
  ghost predicate Dead(s: State, token: Text) {
    token in s.drawn && !Live(s, token)
  }

  lemma DeadStays(s: State, e: Event, token: Text)
    requires Dead(s, token)
    ensures Dead(Next(s, e), token) && !Accepts(s, e, token)
  {
  }

  lemma AcceptedDies(s: State, e: Event, token: Text)
    requires TokensSound(s) && Accepts(s, e, token)
    ensures Dead(Next(s, e), token)
  {
  }

  /** How many completions under a token were accepted. */
  function Completions(s: State, events: seq<Event>, n: nat, token: Text): nat
    requires n <= |events|
  {
    if n == 0 then 0
    else Completions(s, events, n - 1, token) + if Accepts(After(s, events, n - 1), events[n - 1], token) then 1 else 0
  }

  lemma {:induction false} TokensAlwaysSound(s: State, events: seq<Event>, n: nat)
    requires TokensSound(s) && n <= |events|
    ensures TokensSound(After(s, events, n))
  {
    if n > 0 {
      TokensAlwaysSound(s, events, n - 1);
      NextTokensSound(After(s, events, n - 1), events[n - 1]);
    }
  }

  /** A worker whose lease was taken away, by release, sweep, report, investigation or a new claim, has its completion
      rejected for ever; and no token is ever accepted twice. */
  lemma {:induction false} CompletedAtMostOnce(s: State, events: seq<Event>, n: nat, token: Text)
    requires TokensSound(s) && n <= |events|
    ensures Completions(s, events, n, token) <= 1
    ensures Completions(s, events, n, token) == 1 ==> Dead(After(s, events, n), token)
    ensures Dead(s, token) ==> Completions(s, events, n, token) == 0 && Dead(After(s, events, n), token)
  {
    if n > 0 {
      var before := After(s, events, n - 1);
      CompletedAtMostOnce(s, events, n - 1, token);
      TokensAlwaysSound(s, events, n - 1);
      if Dead(before, token) {
        DeadStays(before, events[n - 1], token);
      } else if Accepts(before, events[n - 1], token) {
        AcceptedDies(before, events[n - 1], token);
      }
    }
  }

  // ---------------------------------------------------------------- what the statuses mean in fact

  lemma NextNeverDispatched(s: State, e: Event, id: Text)
    requires !HasStatus(s, id, Dispatched)
    ensures !HasStatus(Next(s, e), id, Dispatched)
  {
  }

  /** No handler writes DISPATCHED: a successful dispatch is recorded as DELIVERED at once. */
  lemma {:induction false} NeverDispatched(s: State, events: seq<Event>, n: nat, id: Text)
    requires !HasStatus(s, id, Dispatched) && n <= |events|
    ensures !HasStatus(After(s, events, n), id, Dispatched)
  {
    if n > 0 {
      NeverDispatched(s, events, n - 1, id);
      NextNeverDispatched(After(s, events, n - 1), events[n - 1], id);
    }
  }

  /** The event ends an investigation of the intent: a late receipt, or a resolution of its entry. */
  predicate EndsInvestigation(s: State, e: Event, id: Text) {
    e == Receipt(id) || (e.Resolve? && e.entryId in s.entries && s.entries[e.entryId].intentId == id)
  }

  /** An investigation ends by a resolution or by a receipt that comes late, and by nothing else. */
  lemma InvestigationEnds(s: State, e: Event, id: Text)
    requires HasStatus(s, id, InvestigationPending)
    ensures id in Next(s, e).intents
    ensures Next(s, e).intents[id].status != InvestigationPending ==> EndsInvestigation(s, e, id)
  {
  }

  /** An investigation that is over was ended by a resolution or a late receipt since. */
  lemma {:induction false} InvestigationEndedBy(s: State, events: seq<Event>, m: nat, n: nat, id: Text)
    requires m <= n <= |events| && HasStatus(After(s, events, m), id, InvestigationPending)
    requires !HasStatus(After(s, events, n), id, InvestigationPending)
    ensures exists k :: m <= k < n && EndsInvestigation(After(s, events, k), events[k], id)
    decreases n
  {
    var before := After(s, events, n - 1);
    if HasStatus(before, id, InvestigationPending) {
      InvestigationEnds(before, events[n - 1], id);
      assert EndsInvestigation(before, events[n - 1], id);
    } else {
      InvestigationEndedBy(s, events, m, n - 1, id);
    }
  }

  /** FAILED without an entry. */
  predicate FailedUnheard(s: State, id: Text) {
    HasStatus(s, id, Failed) && !HasEntry(s, id)
  }

  lemma StaysFailed(s: State, e: Event, id: Text)
    requires FailedUnheard(s, id)
    ensures FailedUnheard(Next(s, e), id)
  {
  }

  /** An UNKNOWN event sent to the reporting handler before any investigation fails the intent for good: whatever comes
      after, no investigation of it opens. */
  lemma {:induction false} UnknownReportShutsInvestigation(s: State, id: Text, events: seq<Event>, n: nat)
    requires id in s.intents && Reportable(s.intents[id].status) && !HasEntry(s, id) && n <= |events|
    ensures FailedUnheard(After(Next(s, Report(id, ReportUnknown)), events, n), id)
  {
    if n > 0 {
      UnknownReportShutsInvestigation(s, id, events, n - 1);
      StaysFailed(After(Next(s, Report(id, ReportUnknown)), events, n - 1), events[n - 1], id);
    }
  }

  /** Sent to the unknown handler first, it opens one, the reporting handler then changes nothing, and over any later run
      no second delivery of the event ever does. */
  lemma UnknownHandledOnce(s: State, id: Text, entryId: Text, events: seq<Event>, n: nat, other: Text)
    requires id in s.intents && Investigable(s.intents[id].status) && !HasEntry(s, id) && entryId !in s.entries
    requires n <= |events|
    ensures var t := Next(s, Investigate(id, entryId)); var later := After(t, events, n);
      && HasStatus(t, id, InvestigationPending) && Next(t, Report(id, ReportUnknown)) == t
      && HasEntry(later, id) && Next(later, Investigate(id, other)) == later
  {
    var t := Next(s, Investigate(id, entryId));
    ResolutionIsFinal(t, events, 0, n, entryId);
    assert After(t, events, n).entries[entryId].intentId == id;
  }

  // ---------------------------------------------------------------- the handlers

  datatype ReportingResult = Reported(previous: IntentStatus, current: IntentStatus) | UnknownIntent | InvalidTransition(IntentStatus)

  datatype ReceiptResult = Acknowledged | AlreadyProcessed | NoSuchIntent

  datatype ReconcileError =
    | IntentNotFound
    | AlreadyReconciling
    | InvalidStateTransition
    | EntryNotFound
    | VersionConflict
    | AlreadyResolved
    | ValidationFailed

  datatype ReconcileResult = Reconciled(entry: Entry) | Refused(why: ReconcileError)

  datatype UnknownResult = Opened(entryId: Text) | AlreadyOpen(entryId: Text) | NotHandled(why: ReconcileError) | Invalid

  class OutboxStore {
    var intents: map<Text, Intent>
    var entries: map<Text, Entry>
    ghost var drawn: set<Text>

    ghost function Model(): State
      reads this
    {
      State(intents, entries, drawn)
    }

    method ProcessEvent(intentId: Text, reported: ReportState) returns (r: ReportingResult)
      modifies this`intents
      ensures Model() == Next(old(Model()), Report(intentId, reported))
      ensures match r
        case UnknownIntent => intentId !in old(intents)
        case InvalidTransition(current) => intentId in old(intents) && old(intents)[intentId].status == current && !Reportable(current)
        case Reported(previous, current) =>
          intentId in old(intents) && old(intents)[intentId].status == previous && intents[intentId].status == current
          && (current.Delivered? <==> reported.ReportDelivered?)
    {
      if intentId !in intents {
        return UnknownIntent;
      }
      var intent := intents[intentId];
      if !Reportable(intent.status) {
        return InvalidTransition(intent.status);
      }
      intents := intents[intentId := intent.(status := MapState(reported))];
      return Reported(intent.status, MapState(reported));
    }

    method ProcessReceipt(intentId: Text) returns (r: ReceiptResult)
      modifies this`intents
      ensures Model() == Next(old(Model()), Receipt(intentId))
      ensures r.NoSuchIntent? <==> intentId !in old(intents)
      ensures r.AlreadyProcessed? <==> intentId in old(intents) && !Receivable(old(intents)[intentId].status)
      ensures r.Acknowledged? ==> intents[intentId].status.AckReceived? && !old(intents)[intentId].status.AckReceived?
    {
      if intentId !in intents {
        return NoSuchIntent;
      }
      var intent := intents[intentId];
      if !Receivable(intent.status) {
        return AlreadyProcessed;
      }
      intents := intents[intentId := intent.(status := AckReceived)];
      return Acknowledged;
    }

    method CreateReconciliationEntry(intentId: Text, entryId: Text) returns (r: ReconcileResult)
      requires entryId !in entries
      modifies this`intents, this`entries
      ensures Model() == Next(old(Model()), Investigate(intentId, entryId))
      ensures r.Reconciled? ==> entryId in entries && entries[entryId] == r.entry && HasStatus(Model(), intentId, InvestigationPending)
      ensures r.Refused? ==> Model() == old(Model())
      ensures r == Refused(IntentNotFound) <==> intentId !in old(intents)
      ensures r == Refused(AlreadyReconciling) <==> intentId in old(intents) && HasEntry(old(Model()), intentId)
      ensures r == Refused(InvalidStateTransition) <==>
        intentId in old(intents) && !HasEntry(old(Model()), intentId) && !Investigable(old(intents)[intentId].status)
      ensures r.Refused? ==> r.why in {IntentNotFound, AlreadyReconciling, InvalidStateTransition}
    {
      if intentId !in intents {
        return Refused(IntentNotFound);
      }
      if k :| k in entries && entries[k].intentId == intentId {
        assert HasEntry(Model(), intentId);
        return Refused(AlreadyReconciling);
      }
      if !Investigable(intents[intentId].status) {
        return Refused(InvalidStateTransition);
      }
      intents := intents[intentId := Unleased(InvestigationPending)];
      var entry := Entry(intentId, PendingInvestigation, 0);
      entries := entries[entryId := entry];
      return Reconciled(entry);
    }

    /** Takes UNKNOWN events with a reason only. Idempotent: an intent that has an entry is reported as already under
        investigation, by that entry. */
    method HandleUnknownDelivery(intentId: Text, reported: ReportState, hasReason: bool, entryId: Text)
      returns (r: UnknownResult)
      requires entryId !in entries
      modifies this`intents, this`entries
      ensures r.Invalid? <==> !reported.ReportUnknown? || !hasReason
      ensures Model() == if r.Invalid? then old(Model()) else Next(old(Model()), Investigate(intentId, entryId))
      ensures r.Opened? ==> HasStatus(Model(), intentId, InvestigationPending)
      ensures !r.Opened? ==> Model() == old(Model())
      ensures r.AlreadyOpen? ==> r.entryId in entries && entries[r.entryId].intentId == intentId
      ensures !r.Invalid? ==>
        && (r == NotHandled(IntentNotFound) <==> intentId !in old(intents))
        && (r.AlreadyOpen? <==> intentId in old(intents) && HasEntry(old(Model()), intentId))
        && (r == NotHandled(InvalidStateTransition) <==>
              intentId in old(intents) && !HasEntry(old(Model()), intentId)
              && !Investigable(old(intents)[intentId].status))
        && (r.NotHandled? ==> r.why == IntentNotFound || r.why == InvalidStateTransition)
    {
      if !reported.ReportUnknown? || !hasReason {
        return Invalid;
      }
      if intentId !in intents {
        return NotHandled(IntentNotFound);
      }
      if k :| k in entries && entries[k].intentId == intentId {
        assert HasEntry(Model(), intentId);
        return AlreadyOpen(k);
      }
      var created := CreateReconciliationEntry(intentId, entryId);
      match created {
        case Reconciled(_) => return Opened(entryId);
        case Refused(why) => return NotHandled(why);
      }
    }

    method MarkAsInvestigating(entryId: Text) returns (r: ReconcileResult)
      modifies this`entries
      ensures Model() == Next(old(Model()), MarkInvestigating(entryId))
      ensures r.Reconciled? ==> entryId in entries && entries[entryId] == r.entry && r.entry.status == Investigating
      ensures r == Refused(EntryNotFound) <==> entryId !in old(entries)
      ensures r == Refused(InvalidStateTransition) <==>
        entryId in old(entries) && !old(entries)[entryId].status.PendingInvestigation?
      ensures r.Refused? ==> r.why == EntryNotFound || r.why == InvalidStateTransition
    {
      if entryId !in entries {
        return Refused(EntryNotFound);
      }
      if !entries[entryId].status.PendingInvestigation? {
        return Refused(InvalidStateTransition);
      }
      entries := entries[entryId := entries[entryId].(status := Investigating)];
      return Reconciled(entries[entryId]);
    }

    method ResolveReconciliation(entryId: Text, resolution: Resolution, retryKey: bool, expectedVersion: Option<nat>)
      returns (r: ReconcileResult)
      modifies this`intents, this`entries
      ensures Model() == Next(old(Model()), Resolve(entryId, resolution, retryKey, expectedVersion))
      ensures r.Reconciled? ==> entryId in entries && entries[entryId] == r.entry && r.entry.status == Resolved(resolution)
      ensures r.Refused? ==> Model() == old(Model())
      ensures r.Reconciled? <==> Resolvable(old(Model()), entryId, resolution, retryKey, expectedVersion)
      ensures r == Refused(ValidationFailed) <==> resolution.Retry? && !retryKey
      ensures r == Refused(EntryNotFound) <==> (resolution.Retry? ==> retryKey) && entryId !in old(entries)
      ensures r == Refused(VersionConflict) <==>
        (resolution.Retry? ==> retryKey) && entryId in old(entries) && expectedVersion.Some?
        && old(entries)[entryId].aggregateVersion != expectedVersion.value
      ensures r == Refused(AlreadyResolved) <==>
        (resolution.Retry? ==> retryKey) && entryId in old(entries) && old(entries)[entryId].status.Resolved?
        && (expectedVersion.Some? ==> old(entries)[entryId].aggregateVersion == expectedVersion.value)
      ensures r.Refused? ==>
        r.why in {ValidationFailed, EntryNotFound, VersionConflict, AlreadyResolved, IntentNotFound}
    {
      if resolution.Retry? && !retryKey {
        return Refused(ValidationFailed);
      }
      if entryId !in entries {
        return Refused(EntryNotFound);
      }
      var entry := entries[entryId];
      if expectedVersion.Some? && entry.aggregateVersion != expectedVersion.value {
        return Refused(VersionConflict);
      }
      if entry.status.Resolved? {
        return Refused(AlreadyResolved);
      }
      if entry.intentId !in intents {
        return Refused(IntentNotFound);
      }
      intents := intents[entry.intentId := intents[entry.intentId].(status := ResolvedStatus(resolution))];
      var resolved := entry.(status := Resolved(resolution), aggregateVersion := entry.aggregateVersion + 1);
      entries := entries[entryId := resolved];
      return Reconciled(resolved);
    }
  }
}
