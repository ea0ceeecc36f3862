/** What moves an intent from status to status, event by event, and what that means for whole runs. */
module OutboxStatuses {
  import opened Ordering
  import opened CanonicalJson
  import opened Outbox

  /** The intent is leased to this worker under this token. */
  predicate LeasedTo(i: Intent, worker: Text, token: Text) {
    i.status == Leased && i.leaseOwner == Some(worker) && i.fencingToken == Some(token)
  }

  predicate Overdue(i: Intent, now: int) {
    i.status == Leased && i.leaseExpiresAt.Some? && i.leaseExpiresAt.value < now
  }

  /** The event brings the intent to this status. */
  predicate Brings(s: State, e: Event, id: Text, to: IntentStatus) {
    if e.Submit? then e.intentId == id && id !in s.intents && to == Pending
    else id in s.intents && Moves(s, e, id, s.intents[id], to)
  }

  predicate Moves(s: State, e: Event, id: Text, i: Intent, to: IntentStatus) {
    match e
    case Claim(x, _, token, now, _) =>
      x == id && i.status == Pending && to == Leased && token !in s.drawn
      && (i.leaseExpiresAt.Some? ==> i.leaseExpiresAt.value <= now)
    case Release(worker, token) => LeasedTo(i, worker, token) && to == Pending
    case ReleaseAll(worker) => i.status == Leased && i.leaseOwner == Some(worker) && to == Pending
    case Reclaim(now) => Overdue(i, now) && to == Pending
    case ResetStuck(x, now) => x == id && Overdue(i, now) && to == Pending
    case Complete(worker, token, outcome) =>
      LeasedTo(i, worker, token)
      && ((outcome == Success && to == Delivered) || (outcome == RetryLater && to == Failed)
          || (outcome == Fail && to == Terminal))
    case Report(x, reported) =>
      x == id && i.status in {Pending, Leased, Dispatched, AckReceived}
      && ((reported == Sent && to == AckReceived) || (reported == ReportDelivered && to == Delivered)
          || (reported == ReportFailed && to == Failed) || (reported == ReportUnknown && to == Failed)
          || (reported == Suppressed && to == Terminal))
    case Receipt(x) => x == id && i.status in {Pending, Leased, Dispatched, InvestigationPending} && to == AckReceived
    case Investigate(x, k) =>
      x == id && i.status in {Pending, Leased, Dispatched, AckReceived, InvestigationPending}
      && to == InvestigationPending && k !in s.entries && forall j :: j in s.entries ==> s.entries[j].intentId != id
    case Resolve(k, r, retryKey, expected) =>
      && k in s.entries && s.entries[k].intentId == id && s.entries[k].status in {PendingInvestigation, Investigating}
      && (expected.Some? ==> s.entries[k].aggregateVersion == expected.value)
      && ((r == Confirmed && to == Delivered) || (r == FailedForGood && to == Failed)
          || (r == Retry && retryKey && to == Pending))
    case _ => false
  }

  /** After any event the intent has the status the event brings it to, and keeps its own if there is none. */
  lemma StatusExactly(s: State, e: Event, id: Text, to: IntentStatus)
    ensures HasStatus(Next(s, e), id, to)
       <==> Brings(s, e, id, to) || (HasStatus(s, id, to) && forall other :: Brings(s, e, id, other) ==> other == to)
  {
    if other :| Brings(s, e, id, other) {
      BringsIt(s, e, id, other);
    } else {
      OtherwiseSame(s, e, id);
    }
  }

  lemma BringsIt(s: State, e: Event, id: Text, to: IntentStatus)
    requires Brings(s, e, id, to)
    ensures HasStatus(Next(s, e), id, to)
  {
  }

  lemma OtherwiseSame(s: State, e: Event, id: Text)
    requires forall to :: !Brings(s, e, id, to)
    ensures id in Next(s, e).intents <==> id in s.intents
    ensures id in s.intents ==> Next(s, e).intents[id].status == s.intents[id].status
  {
    EveryStatus(s, e, id);
    if e.Resolve? && id in s.intents {
      ResolvedOther(s, e, id);
    }
  }

  lemma ResolvedOther(s: State, e: Event, id: Text)
    requires e.Resolve? && id in s.intents && forall to :: !Brings(s, e, id, to)
    ensures Next(s, e).intents[id].status == s.intents[id].status
  {
    EveryStatus(s, e, id);
  }

  lemma EveryStatus(s: State, e: Event, id: Text)
    ensures (exists to :: Brings(s, e, id, to)) <==>
      || Brings(s, e, id, Pending) || Brings(s, e, id, Leased) || Brings(s, e, id, AckReceived)
      || Brings(s, e, id, Delivered) || Brings(s, e, id, Failed) || Brings(s, e, id, Terminal)
      || Brings(s, e, id, InvestigationPending)
  {
  }

  /** An entry is made by the event that opens an investigation, is picked up once, resolved once, and is otherwise left
      alone. */
  lemma EntryExactly(s: State, e: Event, k: Text)
    ensures var t := Next(s, e);
      && (k in t.entries <==>
            k in s.entries || (e.Investigate? && e.entryId == k && Brings(s, e, e.intentId, InvestigationPending)))
      && (k in t.entries && k !in s.entries ==> t.entries[k] == Entry(e.intentId, PendingInvestigation, 0))
      && (k in s.entries ==>
            var was := s.entries[k];
            t.entries[k] ==
              if e == MarkInvestigating(k) && was.status == PendingInvestigation then
                Entry(was.intentId, Investigating, was.aggregateVersion)
              else if e.Resolve? && e.entryId == k && exists to :: Brings(s, e, was.intentId, to) then
                Entry(was.intentId, Resolved(e.resolution), was.aggregateVersion + 1)
              else was)
  {
    if k in s.entries {
      EveryStatus(s, e, s.entries[k].intentId);
    }
  }

  // ---------------------------------------------------------------- causes over runs

  ghost predicate HasFrom(s: State, events: seq<Event>, id: Text, status: IntentStatus, low: nat, high: nat)
    requires high <= |events|
  {
    forall m :: low <= m <= high ==> HasStatus(After(s, events, m), id, status)
  }

  /** Event k brought the intent to the status, which it has had since, up to n. */
  ghost predicate BroughtAt(s: State, events: seq<Event>, id: Text, status: IntentStatus, k: nat, n: nat)
    requires n <= |events|
  {
    k < n && Brings(After(s, events, k), events[k], id, status) && HasFrom(s, events, id, status, k + 1, n)
  }

  lemma StillBrought(s: State, events: seq<Event>, id: Text, status: IntentStatus, k: nat, n: nat, next: nat)
    requires next == n + 1 <= |events| && BroughtAt(s, events, id, status, k, n)
    requires HasStatus(After(s, events, next), id, status)
    ensures BroughtAt(s, events, id, status, k, next)
  {
  }

  /** Whatever status an intent has that it did not have to begin with, some event of the run brought it there, and it has
      kept it since. */
  lemma {:induction false} StatusHasCause(s: State, events: seq<Event>, n: nat, id: Text, status: IntentStatus)
    requires n <= |events| && !HasStatus(s, id, status) && HasStatus(After(s, events, n), id, status)
    ensures exists k: nat :: BroughtAt(s, events, id, status, k, n)
  {
    var before := n - 1;
    var t := After(s, events, before);
    StatusExactly(t, events[before], id, status);
    if Brings(t, events[before], id, status) {
      assert BroughtAt(s, events, id, status, before, n);
    } else {
      StatusHasCause(s, events, before, id, status);
      var k: nat :| BroughtAt(s, events, id, status, k, before);
      StillBrought(s, events, id, status, k, before, n);
    }
  }

  // ---------------------------------------------------------------- final statuses

  predicate Closed(status: IntentStatus) {
    status == Delivered || status == Failed || status == Terminal
  }

  lemma ClosedNext(s: State, e: Event, id: Text, status: IntentStatus)
    requires HasStatus(s, id, status) && Closed(status) && !OpenEntry(s, id)
    ensures HasStatus(Next(s, e), id, status) && !OpenEntry(Next(s, e), id)
  {
    StatusExactly(s, e, id, status);
    NoneOpens(s, e, id);
  }

  lemma NoneOpens(s: State, e: Event, id: Text)
    requires id in s.intents && Closed(s.intents[id].status) && !OpenEntry(s, id)
    ensures !OpenEntry(Next(s, e), id)
  {
  }

  lemma {:induction false} ClosedForGood(s: State, events: seq<Event>, n: nat, id: Text, status: IntentStatus)
    requires HasStatus(s, id, status) && Closed(status) && !OpenEntry(s, id) && n <= |events|
    ensures HasStatus(After(s, events, n), id, status) && !OpenEntry(After(s, events, n), id)
  {
    if n > 0 {
      var before := n - 1;
      ClosedForGood(s, events, before, id, status);
      ClosedNext(After(s, events, before), events[before], id, status);
    }
  }

  /** An event that takes the intent out of a status that is not final. */
  function WayOut(s: State, id: Text, status: IntentStatus): Event {
    match status
    case AckReceived => Report(id, ReportDelivered)
    case InvestigationPending => Receipt(id)
    case _ => Report(id, Sent)
  }

  lemma LeftBehind(s: State, e: Event, id: Text, status: IntentStatus, to: IntentStatus)
    requires HasStatus(s, id, status) && Brings(s, e, id, to) && to != status
    ensures exists events: seq<Event> :: !HasStatus(After(s, events, |events|), id, status)
  {
    StatusExactly(s, e, id, status);
    var events := [e];
    assert After(s, events, 1) == Next(After(s, events, 0), events[0]);
    assert !HasStatus(After(s, events, |events|), id, status);
  }

  /** A status is final exactly if it is DELIVERED, FAILED or TERMINAL and the intent has no entry still to be resolved. */
  lemma FinalExactly(s: State, id: Text, status: IntentStatus)
    requires HasStatus(s, id, status)
    ensures (forall events: seq<Event> :: HasStatus(After(s, events, |events|), id, status))
       <==> Closed(status) && !OpenEntry(s, id)
  {
    if !Closed(status) {
      var to := if status == AckReceived then Delivered else AckReceived;
      LeftBehind(s, WayOut(s, id, status), id, status, to);
    } else if OpenEntry(s, id) {
      var k :| k in s.entries && s.entries[k].intentId == id && !s.entries[k].status.Resolved?;
      var r, to := if status == Delivered then FailedForGood else Confirmed, if status == Delivered then Failed else Delivered;
      LeftBehind(s, Resolve(k, r, false, None), id, status, to);
    } else {
      forall events: seq<Event>
        ensures HasStatus(After(s, events, |events|), id, status)
      {
        ClosedForGood(s, events, |events|, id, status);
      }
    }
  }

  // ---------------------------------------------------------------- what resolutions lead to

  /** While an entry is open its intent is with nobody and cannot be claimed. */
  ghost predicate OpenUnleased(s: State) {
    forall k :: k in s.entries && !s.entries[k].status.Resolved? ==>
      s.entries[k].intentId in s.intents && OutOfReach(s.intents[s.entries[k].intentId])
  }

  predicate OutOfReach(i: Intent) {
    i.leaseOwner.None? && i.leaseExpiresAt.None? && i.fencingToken.None? && i.status != Pending && i.status != Leased
  }

  lemma ReachStays(s: State, e: Event, id: Text)
    requires id in s.intents && OutOfReach(s.intents[id])
    requires e.Resolve? && Resolvable(s, e.entryId, e.resolution, e.retryKey, e.expectedVersion) ==>
      s.entries[e.entryId].intentId != id
    ensures id in Next(s, e).intents && OutOfReach(Next(s, e).intents[id])
  {
  }

  lemma OpenedBefore(s: State, e: Event, k: Text)
    requires k in Next(s, e).entries && !Next(s, e).entries[k].status.Resolved?
    ensures (k in s.entries && !s.entries[k].status.Resolved? && Next(s, e).entries[k].intentId == s.entries[k].intentId)
         || (e.Investigate? && e.entryId == k && Next(s, e).entries[k].intentId == e.intentId
             && e.intentId in Next(s, e).intents && OutOfReach(Next(s, e).intents[e.intentId]))
    ensures e.Resolve? && Resolvable(s, e.entryId, e.resolution, e.retryKey, e.expectedVersion) ==> e.entryId != k
  {
  }

  lemma NextOpenUnleased(s: State, e: Event)
    requires EntriesSound(s) && OpenUnleased(s)
    ensures OpenUnleased(Next(s, e))
  {
    var t := Next(s, e);
    forall k | k in t.entries && !t.entries[k].status.Resolved?
      ensures t.entries[k].intentId in t.intents && OutOfReach(t.intents[t.entries[k].intentId])
    {
      OpenedBefore(s, e, k);
      if k in s.entries && !s.entries[k].status.Resolved? && t.entries[k].intentId == s.entries[k].intentId {
        ReachStays(s, e, s.entries[k].intentId);
      }
    }
  }

  lemma {:induction false} AlwaysOpenUnleased(s: State, events: seq<Event>, n: nat)
    requires EntriesSound(s) && OpenUnleased(s) && n <= |events|
    ensures OpenUnleased(After(s, events, n))
  {
    if n > 0 {
      var before := n - 1;
      AlwaysOpenUnleased(s, events, before);
      OneEntryPerIntent(s, events, before);
      NextOpenUnleased(After(s, events, before), events[before]);
    }
  }

  lemma ResolvedCloses(s: State, k: Text, r: Resolution, retryKey: bool, expected: Option<nat>)
    requires EntriesSound(s) && Resolvable(s, k, r, retryKey, expected)
    ensures !OpenEntry(Next(s, Resolve(k, r, retryKey, expected)), s.entries[k].intentId)
  {
  }

  /** Resolved as CONFIRMED or FAILED an intent is DELIVERED or FAILED for good: whatever comes after, its status stays,
      and no worker can claim it, so nothing is sent again. */
  lemma ResolvedForGood(
      s: State, k: Text, r: Resolution, retryKey: bool, expected: Option<nat>, events: seq<Event>, n: nat, claim: Event)
    requires EntriesSound(s) && Resolvable(s, k, r, retryKey, expected) && r != Retry && n <= |events| && claim.Claim?
    ensures var id := s.entries[k].intentId; var t := After(Next(s, Resolve(k, r, retryKey, expected)), events, n);
      && HasStatus(t, id, if r == Confirmed then Delivered else Failed)
      && (claim.intentId == id ==> Next(t, claim) == t)
  {
    var id, t := s.entries[k].intentId, Next(s, Resolve(k, r, retryKey, expected));
    var to := if r == Confirmed then Delivered else Failed;
    StatusExactly(s, Resolve(k, r, retryKey, expected), id, to);
    ResolvedCloses(s, k, r, retryKey, expected);
    ClosedForGood(t, events, n, id, to);
  }

  /** Resolved as RETRY an intent is PENDING, and the next claim under a fresh token gets it, whenever it comes. */
  lemma RetriedIsClaimable(
      s: State, events: seq<Event>, n: nat, k: Text, expected: Option<nat>, worker: Text, token: Text, now: int, duration: int)
    requires EntriesSound(s) && OpenUnleased(s) && n <= |events|
    requires Resolvable(After(s, events, n), k, Retry, true, expected) && token !in After(s, events, n).drawn
    ensures var t := After(s, events, n); var id := t.entries[k].intentId;
      var retried := Next(t, Resolve(k, Retry, true, expected));
      HasStatus(retried, id, Pending)
      && LeasedUntil(Next(retried, Claim(id, worker, token, now, duration)), id, worker, token, now + duration)
  {
    AlwaysOpenUnleased(s, events, n);
    var t := After(s, events, n);
    RetriedFrom(t, Next(t, Resolve(k, Retry, true, expected)), k, expected);
    FreshClaim(Next(t, Resolve(k, Retry, true, expected)), t.entries[k].intentId, worker, token, now, duration);
  }

  lemma RetriedFrom(t: State, retried: State, k: Text, expected: Option<nat>)
    requires OpenUnleased(t) && Resolvable(t, k, Retry, true, expected)
    requires retried == Next(t, Resolve(k, Retry, true, expected))
    ensures var id := t.entries[k].intentId;
      HasStatus(retried, id, Pending) && retried.intents[id].leaseExpiresAt.None? && retried.drawn == t.drawn
  {
  }

  lemma FreshClaim(s: State, id: Text, worker: Text, token: Text, now: int, duration: int)
    requires HasStatus(s, id, Pending) && s.intents[id].leaseExpiresAt.None? && token !in s.drawn
    ensures LeasedUntil(Next(s, Claim(id, worker, token, now, duration)), id, worker, token, now + duration)
  {
  }

  // ---------------------------------------------------------------- leases

  /** The worker gets, or extends, the lease until x. */
  predicate Leases(s: State, e: Event, id: Text, worker: Text, token: Text, x: int) {
    || (e.Claim? && e.worker == worker && e.token == token && x == e.now + e.duration && Brings(s, e, id, Leased))
    || (e.Extend? && e.worker == worker && e.token == token && x == e.now + e.duration
        && id in s.intents && LeasedTo(s.intents[id], worker, token))
  }

  predicate LeasedUntil(s: State, id: Text, worker: Text, token: Text, x: int) {
    id in s.intents && s.intents[id] == Intent(Leased, Some(worker), Some(x), Some(token))
  }

  lemma LeaseExactly(s: State, e: Event, id: Text, worker: Text, token: Text, x: int)
    ensures LeasedUntil(Next(s, e), id, worker, token, x) <==>
      || Leases(s, e, id, worker, token, x)
      || (LeasedUntil(s, id, worker, token, x) && (forall to :: !Brings(s, e, id, to))
          && forall y :: Leases(s, e, id, worker, token, y) ==> y == x)
  {
    EveryStatus(s, e, id);
    match e {
      case Claim(_, _, _, now, duration) =>
        assert e.worker == worker && e.token == token && Brings(s, e, id, Leased) ==>
          Leases(s, e, id, worker, token, now + duration);
      case Extend(_, _, now, duration) =>
        assert e.worker == worker && e.token == token && id in s.intents && LeasedTo(s.intents[id], worker, token) ==>
          Leases(s, e, id, worker, token, now + duration);
      case _ => StillLeased(s, e, id, worker, token, x);
    }
  }

  lemma StillLeased(s: State, e: Event, id: Text, worker: Text, token: Text, x: int)
    requires !e.Claim? && !e.Extend?
    ensures LeasedUntil(Next(s, e), id, worker, token, x) <==>
      LeasedUntil(s, id, worker, token, x) && forall to :: !Brings(s, e, id, to)
  {
    EveryStatus(s, e, id);
  }

  /** A lease runs out when its last claim or extension said: until then, nothing but its own holder and the handlers of
      the intent ends it. */
  lemma {:induction false} LeaseHasCause(
      s: State, events: seq<Event>, n: nat, id: Text, worker: Text, token: Text, x: int) returns (k: nat)
    requires n <= |events| && !LeasedUntil(s, id, worker, token, x)
    requires LeasedUntil(After(s, events, n), id, worker, token, x)
    ensures k < n && Leases(After(s, events, k), events[k], id, worker, token, x)
    ensures forall m :: k < m <= n ==> LeasedUntil(After(s, events, m), id, worker, token, x)
  {
    var before := n - 1;
    LeaseExactly(After(s, events, before), events[before], id, worker, token, x);
    if Leases(After(s, events, before), events[before], id, worker, token, x) {
      k := before;
    } else {
      k := LeaseHasCause(s, events, before, id, worker, token, x);
    }
  }
}
