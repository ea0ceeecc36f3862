/** Autofill drafts: made on accept, applied on confirm, at most once each. */
module AutofillDrafts {
  import opened Ordering
  import opened CanonicalJson

  datatype Status = DraftStatus | PendingReview | Accepted | Rejected | Stale

  datatype Proposal = Proposal(proposalId: Text, organizationId: Text, status: Status)

  /** The digest of a draft stands for the text it is computed from. */
  datatype Draft = Draft(
    draftId: Text,
    proposalId: Text,
    profileId: Text,
    organizationId: Text,
    actorId: Text,
    fieldPaths: seq<Text>,
    draftRevision: Text,
    confirmationDigest: Text,
    applied: bool)

  datatype Failure =
    | NotFound
    | StaleContext
    | WrongActor
    | DraftVersionConflict
    | ConfirmationMismatch
    | DuplicateMutation

  datatype Result<T> = Success(value: T) | Refused(why: Failure)

  datatype State = State(proposals: map<Text, seq<Proposal>>, drafts: map<Text, Draft>, appliedMutations: set<Text>)

  const PIPE: CodeUnit := 124

  function StableKey(actorId: Text, profileId: Text, proposalId: Text, fieldPaths: seq<Text>): Text {
    actorId + [PIPE] + profileId + [PIPE] + proposalId + [PIPE] + Join(Sort(fieldPaths, TextAtMost))
  }

  function FindProposal(list: seq<Proposal>, proposalId: Text): (i: Option<nat>)
    ensures i.Some? ==> i.value < |list| && list[i.value].proposalId == proposalId
  {
    if list == [] then None
    else if list[0].proposalId == proposalId then Some(0)
    else
      match FindProposal(list[1..], proposalId)
      case None => None
      case Some(i) => Some(i + 1)
  }

  /** A proposal that can still be worked on. */
  function Usable(s: State, profileId: Text, proposalId: Text): Result<nat> {
    if profileId !in s.proposals then Refused(NotFound)
    else
      match FindProposal(s.proposals[profileId], proposalId)
      case None => Refused(NotFound)
      case Some(i) => if s.proposals[profileId][i].status.Stale? then Refused(StaleContext) else Success(i)
  }

  function SetStatus(s: State, profileId: Text, i: nat, status: Status): State
    requires profileId in s.proposals && i < |s.proposals[profileId]|
  {
    var list := s.proposals[profileId];
    s.(proposals := s.proposals[profileId := list[i := list[i].(status := status)]])
  }

  lemma UsableIndex(s: State, profileId: Text, proposalId: Text)
    requires Usable(s, profileId, proposalId).Success?
    ensures profileId in s.proposals && Usable(s, profileId, proposalId).value < |s.proposals[profileId]|
  {
  }

  // ---------------------------------------------------------------- operations

  function UpdateStatus(s: State, profileId: Text, proposalId: Text, status: Status): (State, Result<Status>) {
    match Usable(s, profileId, proposalId)
    case Refused(why) => (s, Refused(why))
    case Success(i) =>
      UsableIndex(s, profileId, proposalId);
      (SetStatus(s, profileId, i, status), Success(status))
  }

  /** createAutofillDraft; idOf makes the draft id of a stable key, the first sixteen digits of its SHA-256. */
  function Create(s: State, idOf: Text -> Text, profileId: Text, proposalId: Text, actorId: Text, fieldPaths: seq<Text>)
    : (State, Result<Draft>)
  {
    match Usable(s, profileId, proposalId)
    case Refused(why) => (s, Refused(why))
    case Success(i) =>
      UsableIndex(s, profileId, proposalId);
      var key := StableKey(actorId, profileId, proposalId, fieldPaths);
      var id := idOf(key);
      if id in s.drafts && s.drafts[id].actorId == actorId && !s.drafts[id].applied then (s, Success(s.drafts[id]))
      else
        var draft := Draft(id, proposalId, profileId, s.proposals[profileId][i].organizationId, actorId,
                           Sort(fieldPaths, TextAtMost), Ascii("rev-1"), key, false);
        (s.(drafts := s.drafts[id := draft]), Success(draft))
  }

  const SYSTEM: Text := Ascii("system")

  function AcceptProposal(s: State, draft: Draft): State {
    match Usable(s, draft.profileId, draft.proposalId)
    case Refused(_) => s
    case Success(i) =>
      UsableIndex(s, draft.profileId, draft.proposalId);
      SetStatus(s, draft.profileId, i, Accepted)
  }

  /** What stands against a confirmation, if anything. */
  function Objection(s: State, draftId: Text, revision: Text, digest: Text, actorId: Text): Option<Failure> {
    if draftId !in s.drafts then Some(NotFound)
    else
      var draft := s.drafts[draftId];
      if draft.actorId != actorId && actorId != SYSTEM then Some(WrongActor)
      else if !draft.applied && draftId in s.appliedMutations then Some(DuplicateMutation)
      else if draft.draftRevision != revision then Some(DraftVersionConflict)
      else if draft.confirmationDigest != digest then Some(ConfirmationMismatch)
      else None
  }

  lemma ObjectionFreeIsThere(s: State, draftId: Text, revision: Text, digest: Text, actorId: Text)
    requires Objection(s, draftId, revision, digest, actorId).None?
    ensures draftId in s.drafts
  {
  }

  function Confirm(s: State, draftId: Text, revision: Text, digest: Text, actorId: Text): (State, Result<Draft>) {
    match Objection(s, draftId, revision, digest, actorId)
    case Some(why) => (s, Refused(why))
    case None =>
      ObjectionFreeIsThere(s, draftId, revision, digest, actorId);
      var draft := s.drafts[draftId];
      if draft.applied then (s, Success(draft))
      else
        var done := draft.(applied := true);
        (AcceptProposal(s.(drafts := s.drafts[draftId := done], appliedMutations := s.appliedMutations + {draftId}), draft),
         Success(done))
  }

  // ---------------------------------------------------------------- any run of operations

  datatype Operation =
    | Seed(profileId: Text, list: seq<Proposal>)
    | Status(profileId: Text, proposalId: Text, status: Status)
    | Accept(profileId: Text, proposalId: Text, actorId: Text, fieldPaths: seq<Text>)
    | ConfirmDraft(draftId: Text, revision: Text, digest: Text, actorId: Text)

  function Next(s: State, idOf: Text -> Text, op: Operation): State {
    match op
    case Seed(profileId, list) =>
      if profileId in s.proposals then s else s.(proposals := s.proposals[profileId := list])
    case Status(profileId, proposalId, status) => UpdateStatus(s, profileId, proposalId, status).0
    case Accept(profileId, proposalId, actorId, paths) => Create(s, idOf, profileId, proposalId, actorId, paths).0
    case ConfirmDraft(id, revision, digest, actorId) => Confirm(s, id, revision, digest, actorId).0
  }

  function After(s: State, idOf: Text -> Text, ops: seq<Operation>): State {
    if ops == [] then s else Next(After(s, idOf, ops[..|ops| - 1]), idOf, ops[|ops| - 1])
  }

  /** The operation turns this draft from unapplied to applied. */
  predicate Applies(s: State, op: Operation, draftId: Text) {
    op.ConfirmDraft? && op.draftId == draftId && draftId in s.drafts && !s.drafts[draftId].applied
    && Confirm(s, op.draftId, op.revision, op.digest, op.actorId).1.Success?
  }

  function Applications(s: State, idOf: Text -> Text, ops: seq<Operation>, draftId: Text): nat {
    if ops == [] then 0
    else
      var before, last := ops[..|ops| - 1], ops[|ops| - 1];
      Applications(s, idOf, before, draftId) + if Applies(After(s, idOf, before), last, draftId) then 1 else 0
  }

  /** Every applied draft is in the mutation ledger. */
  ghost predicate Consistent(s: State) {
    forall id :: id in s.drafts && s.drafts[id].applied ==> id in s.appliedMutations
  }

  lemma NextConsistent(s: State, idOf: Text -> Text, op: Operation)
    requires Consistent(s)
    ensures Consistent(Next(s, idOf, op))
  {
  }

  /** The mutation ledger only grows, by exactly the drafts that get applied. */
  lemma NextApplies(s: State, idOf: Text -> Text, op: Operation, draftId: Text)
    ensures draftId in Next(s, idOf, op).appliedMutations <==> draftId in s.appliedMutations || Applies(s, op, draftId)
    ensures Applies(s, op, draftId) ==> draftId !in s.appliedMutations
  {
  }

  /** Over any run each draft is applied at most once, exactly once if the ledger ends up holding it, although accepting
      again can put an unapplied draft under the id of an applied one. */
  lemma {:induction false} AppliedAtMostOnce(s: State, idOf: Text -> Text, ops: seq<Operation>, draftId: Text)
    requires draftId !in s.appliedMutations
    ensures Applications(s, idOf, ops, draftId) == if draftId in After(s, idOf, ops).appliedMutations then 1 else 0
  {
    if ops != [] {
      var before := ops[..|ops| - 1];
      AppliedAtMostOnce(s, idOf, before, draftId);
      NextApplies(After(s, idOf, before), idOf, ops[|ops| - 1], draftId);
    }
  }

  // ---------------------------------------------------------------- idempotent recovery, and where it ends

  /** A confirmation repeated right away returns the same applied draft and changes nothing. */
  lemma ConfirmAgain(s: State, draftId: Text, revision: Text, digest: Text, actorId: Text)
    requires Confirm(s, draftId, revision, digest, actorId).1.Success?
    ensures var (t, r) := Confirm(s, draftId, revision, digest, actorId);
      Confirm(t, draftId, revision, digest, actorId) == (t, r) && r.value.applied
  {
  }

  /** The draft under an applied id was made again and stands unapplied. */
  predicate Recreated(s: State, draftId: Text) {
    draftId in s.appliedMutations && draftId in s.drafts && !s.drafts[draftId].applied
  }

  /** Accepting the same fields again after the draft was applied replaces it. */
  lemma AcceptRecreates(s: State, idOf: Text -> Text, profileId: Text, proposalId: Text, actorId: Text, paths: seq<Text>)
    requires Usable(s, profileId, proposalId).Success?
    requires var id := idOf(StableKey(actorId, profileId, proposalId, paths));
      id in s.appliedMutations && id in s.drafts && s.drafts[id].applied
    ensures var (t, r) := Create(s, idOf, profileId, proposalId, actorId, paths);
      r.Success? && Recreated(t, r.value.draftId) && r.value.draftId == idOf(StableKey(actorId, profileId, proposalId, paths))
  {
  }

  lemma NextStaysRecreated(s: State, idOf: Text -> Text, op: Operation, draftId: Text)
    requires Recreated(s, draftId)
    ensures Recreated(Next(s, idOf, op), draftId)
  {
  }

  /** From then on every confirmation of it fails: the promised idempotent answer is gone for good. */
  lemma {:induction false} RecreatedNeverConfirms(
      s: State, idOf: Text -> Text, ops: seq<Operation>, draftId: Text, revision: Text, digest: Text, actorId: Text)
    requires Recreated(s, draftId)
    ensures Confirm(After(s, idOf, ops), draftId, revision, digest, actorId).1.Refused?
    ensures Recreated(After(s, idOf, ops), draftId)
  {
    if ops != [] {
      var before := ops[..|ops| - 1];
      RecreatedNeverConfirms(s, idOf, before, draftId, revision, digest, actorId);
      NextStaysRecreated(After(s, idOf, before), idOf, ops[|ops| - 1], draftId);
    }
  }

  /** Whoever accepts the same fields again after the draft was applied can never confirm it again, whatever is done
      after. */
  lemma AcceptedAgainNeverConfirms(
      s: State, idOf: Text -> Text, profileId: Text, proposalId: Text, actorId: Text, paths: seq<Text>,
      ops: seq<Operation>, revision: Text, digest: Text, confirmer: Text)
    requires Usable(s, profileId, proposalId).Success?
    requires var id := idOf(StableKey(actorId, profileId, proposalId, paths));
      id in s.appliedMutations && id in s.drafts && s.drafts[id].applied
    ensures var t := Create(s, idOf, profileId, proposalId, actorId, paths).0;
      Confirm(After(t, idOf, ops), idOf(StableKey(actorId, profileId, proposalId, paths)), revision, digest, confirmer).1.Refused?
  {
    AcceptRecreates(s, idOf, profileId, proposalId, actorId, paths);
    RecreatedNeverConfirms(Create(s, idOf, profileId, proposalId, actorId, paths).0, idOf, ops,
                           idOf(StableKey(actorId, profileId, proposalId, paths)), revision, digest, confirmer);
  }

  /** So a repeated confirmation of a draft applied before succeeds exactly while it was not made again. */
  lemma ReplayExactly(s: State, draftId: Text)
    requires Consistent(s) && draftId in s.appliedMutations && draftId in s.drafts
    ensures var d := s.drafts[draftId];
      Confirm(s, draftId, d.draftRevision, d.confirmationDigest, d.actorId).1.Success? <==> !Recreated(s, draftId)
  {
  }

  // ---------------------------------------------------------------- how a proposal gets accepted

  predicate StatusAt(s: State, profileId: Text, i: nat, status: Status) {
    profileId in s.proposals && i < |s.proposals[profileId]| && s.proposals[profileId][i].status == status
  }

  /** An update of the i-th proposal to ACCEPTED, or the application of a draft made from it. */
  predicate Turns(s: State, op: Operation, profileId: Text, i: nat) {
    profileId in s.proposals &&
    match op
    case Status(p, proposalId, status) =>
      p == profileId && status.Accepted? && FindProposal(s.proposals[profileId], proposalId) == Some(i)
    case ConfirmDraft(draftId, _, _, _) =>
      && Applies(s, op, draftId) && s.drafts[draftId].profileId == profileId
      && FindProposal(s.proposals[profileId], s.drafts[draftId].proposalId) == Some(i)
    case _ => false
  }

  /** A proposal becomes ACCEPTED exactly by these two operations, unless it is STALE. So a rejected one does: rejecting a
      proposal does not stop a draft made from it before. */
  lemma BecomesAccepted(s: State, idOf: Text -> Text, op: Operation, profileId: Text, i: nat)
    requires profileId in s.proposals && i < |s.proposals[profileId]|
    requires !StatusAt(s, profileId, i, Accepted)
    ensures var t := Next(s, idOf, op);
      && profileId in t.proposals && |t.proposals[profileId]| == |s.proposals[profileId]|
      && (StatusAt(t, profileId, i, Accepted) <==> Turns(s, op, profileId, i) && !StatusAt(s, profileId, i, Stale))
  {
    match op {
      case Seed(_, _) =>
      case Status(_, _, _) =>
      case Accept(_, _, _, _) =>
      case ConfirmDraft(_, _, _, _) =>
    }
  }

  /** A proposal that is ACCEPTED at the end of a run and was not, say because it had been rejected, at some point of it,
      was turned by such an operation since. */
  lemma {:induction false} AcceptedSince(s: State, idOf: Text -> Text, ops: seq<Operation>, m: nat, profileId: Text, i: nat)
    returns (k: nat)
    requires m <= |ops| && StatusAt(After(s, idOf, ops), profileId, i, Accepted)
    requires profileId in After(s, idOf, ops[..m]).proposals && i < |After(s, idOf, ops[..m]).proposals[profileId]|
    requires !StatusAt(After(s, idOf, ops[..m]), profileId, i, Accepted)
    ensures m <= k < |ops| && Turns(After(s, idOf, ops[..k]), ops[k], profileId, i)
  {
    assert ops[..|ops|] == ops;
    var n := |ops| - 1;
    var before := ops[..n];
    assert before[..m] == ops[..m];
    StaysListed(s, idOf, before, m, profileId, i);
    if StatusAt(After(s, idOf, before), profileId, i, Accepted) {
      k := AcceptedSince(s, idOf, before, m, profileId, i);
      assert before[..k] == ops[..k];
    } else {
      k := n;
      BecomesAccepted(After(s, idOf, before), idOf, ops[n], profileId, i);
    }
  }

  /** Proposals never go away. */
  lemma {:induction false} StaysListed(s: State, idOf: Text -> Text, ops: seq<Operation>, m: nat, profileId: Text, i: nat)
    requires m <= |ops|
    requires profileId in After(s, idOf, ops[..m]).proposals && i < |After(s, idOf, ops[..m]).proposals[profileId]|
    ensures profileId in After(s, idOf, ops).proposals && i < |After(s, idOf, ops).proposals[profileId]|
  {
    if m == |ops| {
      assert ops[..m] == ops;
    } else {
      var n := |ops| - 1;
      var before := ops[..n];
      assert before[..m] == ops[..m];
      StaysListed(s, idOf, before, m, profileId, i);
      NextListed(After(s, idOf, before), idOf, ops[n], profileId, i);
    }
  }

  lemma NextListed(s: State, idOf: Text -> Text, op: Operation, profileId: Text, i: nat)
    requires profileId in s.proposals && i < |s.proposals[profileId]|
    ensures profileId in Next(s, idOf, op).proposals && i < |Next(s, idOf, op).proposals[profileId]|
  {
  }

  // ---------------------------------------------------------------- the store

  class DraftStore {
    const idOf: Text -> Text
    var autofillByProfile: map<Text, seq<Proposal>>
    var autofillDrafts: map<Text, Draft>
    var appliedMutations: set<Text>

    ghost function Model(): State
      reads this
    {
      State(autofillByProfile, autofillDrafts, appliedMutations)
    }

    constructor (idOf: Text -> Text)
      ensures this.idOf == idOf && Model() == State(map[], map[], {})
    {
      this.idOf := idOf;
      autofillByProfile, autofillDrafts, appliedMutations := map[], map[], {};
    }

    method FindUsable(profileId: Text, proposalId: Text) returns (r: Result<nat>)
      ensures r == Usable(Model(), profileId, proposalId)
      ensures r.Success? ==> profileId in autofillByProfile && r.value < |autofillByProfile[profileId]|
    {
      if profileId !in autofillByProfile {
        return Refused(NotFound);
      }
      var list := autofillByProfile[profileId];
      var i := FindProposal(list, proposalId);
      if i.None? {
        return Refused(NotFound);
      }
      if list[i.value].status.Stale? {
        return Refused(StaleContext);
      }
      return Success(i.value);
    }

    method UpdateProposalStatus(profileId: Text, proposalId: Text, status: Status) returns (r: Result<Status>)
      modifies this
      ensures (Model(), r) == UpdateStatus(old(Model()), profileId, proposalId, status)
    {
      var found := FindUsable(profileId, proposalId);
      if found.Refused? {
        return Refused(found.why);
      }
      var list := autofillByProfile[profileId];
      autofillByProfile := autofillByProfile[profileId := list[found.value := list[found.value].(status := status)]];
      return Success(status);
    }

    method CreateAutofillDraft(profileId: Text, proposalId: Text, actorId: Text, fieldPaths: seq<Text>)
      returns (r: Result<Draft>)
      modifies this
      ensures (Model(), r) == Create(old(Model()), idOf, profileId, proposalId, actorId, fieldPaths)
    {
      var found := FindUsable(profileId, proposalId);
      if found.Refused? {
        return Refused(found.why);
      }
      var key := StableKey(actorId, profileId, proposalId, fieldPaths);
      var id := idOf(key);
      if id in autofillDrafts && autofillDrafts[id].actorId == actorId && !autofillDrafts[id].applied {
        return Success(autofillDrafts[id]);
      }
      var draft := Draft(id, proposalId, profileId, autofillByProfile[profileId][found.value].organizationId, actorId,
                         Sort(fieldPaths, TextAtMost), Ascii("rev-1"), key, false);
      autofillDrafts := autofillDrafts[id := draft];
      return Success(draft);
    }

    method ConfirmAutofillDraft(draftId: Text, revision: Text, digest: Text, actorId: Text) returns (r: Result<Draft>)
      modifies this
      ensures (Model(), r) == Confirm(old(Model()), draftId, revision, digest, actorId)
    {
      if draftId !in autofillDrafts {
        return Refused(NotFound);
      }
      var draft := autofillDrafts[draftId];
      if draft.actorId != actorId && actorId != SYSTEM {
        return Refused(WrongActor);
      }
      if draft.applied {
        if draft.draftRevision != revision {
          return Refused(DraftVersionConflict);
        }
        return if draft.confirmationDigest != digest then Refused(ConfirmationMismatch) else Success(draft);
      }
      if draftId in appliedMutations {
        return Refused(DuplicateMutation);
      }
      if draft.draftRevision != revision {
        return Refused(DraftVersionConflict);
      }
      if draft.confirmationDigest != digest {
        return Refused(ConfirmationMismatch);
      }
      var done := draft.(applied := true);
      autofillDrafts := autofillDrafts[draftId := done];
      appliedMutations := appliedMutations + {draftId};
      var found := FindUsable(draft.profileId, draft.proposalId);
      if found.Success? {
        var list := autofillByProfile[draft.profileId];
        autofillByProfile :=
          autofillByProfile[draft.profileId := list[found.value := list[found.value].(status := Accepted)]];
      }
      return Success(done);
    }
  }
}
