/** What accepting and confirming are answered, and how every draft of a run is made. */
module AutofillAnswers {
  import opened Ordering
  import opened CanonicalJson
  import opened AutofillDrafts

  // ---------------------------------------------------------------- confirming

  /** The one who made the draft, or the system. */
  predicate MayConfirm(draft: Draft, actorId: Text) {
    actorId == draft.actorId || actorId == Ascii("system")
  }

  /** Nobody applied the draft under this id before it was made again. */
  predicate Unspent(s: State, draftId: Text)
    requires draftId in s.drafts
  {
    s.drafts[draftId].applied || draftId !in s.appliedMutations
  }

  /** A confirmation succeeds exactly if it comes from the draft's actor or the system, with its revision and digest, and
      the id was not used up; otherwise the first of these that fails is told, the used-up id before revision and digest. */
  lemma ConfirmExactly(s: State, id: Text, revision: Text, digest: Text, actorId: Text)
    ensures var r := Confirm(s, id, revision, digest, actorId).1;
      if id !in s.drafts then r == Refused(NotFound)
      else
        var draft := s.drafts[id];
        if !MayConfirm(draft, actorId) then r == Refused(WrongActor)
        else if !Unspent(s, id) then r == Refused(DuplicateMutation)
        else if revision != draft.draftRevision then r == Refused(DraftVersionConflict)
        else if digest != draft.confirmationDigest then r == Refused(ConfirmationMismatch)
        else r == Success(draft.(applied := true))
  {
  }

  // ---------------------------------------------------------------- accepting

  /** The first proposal of the profile with this id stands at i. */
  predicate StandsAt(s: State, profileId: Text, proposalId: Text, i: nat) {
    && profileId in s.proposals && i < |s.proposals[profileId]| && s.proposals[profileId][i].proposalId == proposalId
    && forall j :: 0 <= j < i ==> s.proposals[profileId][j].proposalId != proposalId
  }

  lemma {:induction false} FindsFirst(list: seq<Proposal>, proposalId: Text, i: nat)
    requires i < |list| && list[i].proposalId == proposalId && forall j :: 0 <= j < i ==> list[j].proposalId != proposalId
    ensures FindProposal(list, proposalId) == Some(i)
  {
    if i > 0 {
      FindsFirst(list[1..], proposalId, i - 1);
    }
  }

  lemma {:induction false} FindsOnlyFirst(list: seq<Proposal>, proposalId: Text)
    ensures match FindProposal(list, proposalId)
      case None => forall j :: 0 <= j < |list| ==> list[j].proposalId != proposalId
      case Some(i) => forall j :: 0 <= j < i ==> list[j].proposalId != proposalId
  {
    if list != [] && list[0].proposalId != proposalId {
      FindsOnlyFirst(list[1..], proposalId);
      assert forall j :: 0 < j < |list| ==> list[j] == list[1..][j - 1];
    }
  }

  /** Working on a proposal is refused exactly when there is none of this id, or the first one is stale. */
  lemma UsableExactly(s: State, profileId: Text, proposalId: Text, i: nat)
    ensures StandsAt(s, profileId, proposalId, i) ==>
      Usable(s, profileId, proposalId)
      == if s.proposals[profileId][i].status == Stale then Refused(StaleContext) else Success(i)
    ensures (forall j: nat :: !StandsAt(s, profileId, proposalId, j)) ==> Usable(s, profileId, proposalId) == Refused(NotFound)
  {
    if profileId in s.proposals {
      var list := s.proposals[profileId];
      if StandsAt(s, profileId, proposalId, i) {
        FindsFirst(list, proposalId, i);
      }
      FindsOnlyFirst(list, proposalId);
      var found := FindProposal(list, proposalId);
      if found.Some? {
        assert StandsAt(s, profileId, proposalId, found.value);
      }
    }
  }

  /** Texts with commas between them. */
  function Listed(parts: seq<Text>): Text {
    if |parts| <= 1 then (if parts == [] then [] else parts[0]) else parts[0] + Ascii(",") + Listed(parts[1..])
  }

  /** actor|profile|proposal|fields. */
  function KeyText(actorId: Text, profileId: Text, proposalId: Text, sorted: seq<Text>): Text {
    actorId + Ascii("|") + profileId + Ascii("|") + proposalId + Ascii("|") + Listed(sorted)
  }

  lemma {:induction false} JoinIsListed(parts: seq<Text>)
    ensures Join(parts) == Listed(parts)
  {
    assert Ascii(",") == [COMMA];
    if |parts| > 1 {
      JoinIsListed(parts[1..]);
    }
  }

  lemma StableKeyIs(actorId: Text, profileId: Text, proposalId: Text, fieldPaths: seq<Text>)
    ensures StableKey(actorId, profileId, proposalId, fieldPaths)
         == KeyText(actorId, profileId, proposalId, Sort(fieldPaths, TextAtMost))
  {
    assert Ascii("|") == [PIPE];
    JoinIsListed(Sort(fieldPaths, TextAtMost));
  }

  /** A draft as it is made: first revision, its fields in order, its digest of who, what and which fields, its id of that. */
  ghost predicate WellMade(draft: Draft, idOf: Text -> Text) {
    && draft.draftRevision == Ascii("rev-1") && Sorted(draft.fieldPaths, TextAtMost)
    && draft.confirmationDigest == KeyText(draft.actorId, draft.profileId, draft.proposalId, draft.fieldPaths)
    && draft.draftId == idOf(draft.confirmationDigest)
  }

  /** Accepting gives a draft for the actor, the proposal and just these fields, in the proposal's organization: the one
      there is, if it is the same actor's and not applied, and else a new one in its place. */
  lemma AcceptExactly(
      s: State, idOf: Text -> Text, profileId: Text, proposalId: Text, actorId: Text, fieldPaths: seq<Text>, i: nat)
    returns (sorted: seq<Text>)
    requires StandsAt(s, profileId, proposalId, i) && s.proposals[profileId][i].status != Stale
    ensures multiset(sorted) == multiset(fieldPaths) && Sorted(sorted, TextAtMost)
    ensures var key := KeyText(actorId, profileId, proposalId, sorted); var id := idOf(key);
      var (t, r) := Create(s, idOf, profileId, proposalId, actorId, fieldPaths);
      && r.Success?
      && (if id in s.drafts && s.drafts[id].actorId == actorId && !s.drafts[id].applied then t == s && r.value == s.drafts[id]
          else
            && t == s.(drafts := s.drafts[id := r.value])
            && r.value == Draft(id, proposalId, profileId, s.proposals[profileId][i].organizationId, actorId, sorted,
                                Ascii("rev-1"), key, false))
  {
    sorted := Sort(fieldPaths, TextAtMost);
    TextTotalPreorder();
    SortPermutes(fieldPaths, TextAtMost);
    SortSorts(fieldPaths, TextAtMost);
    StableKeyIs(actorId, profileId, proposalId, fieldPaths);
    UsableExactly(s, profileId, proposalId, i);
  }

  // ---------------------------------------------------------------- over runs

  ghost predicate AllWellMade(s: State, idOf: Text -> Text) {
    forall id :: id in s.drafts ==> s.drafts[id].draftId == id && WellMade(s.drafts[id], idOf)
  }

  lemma NextWellMade(s: State, idOf: Text -> Text, op: Operation)
    requires AllWellMade(s, idOf)
    ensures AllWellMade(Next(s, idOf, op), idOf)
  {
    if op.Accept? && Usable(s, op.profileId, op.proposalId).Success? {
      TextTotalPreorder();
      SortSorts(op.fieldPaths, TextAtMost);
      StableKeyIs(op.actorId, op.profileId, op.proposalId, op.fieldPaths);
    }
  }

  /** Every draft of every run is well made. */
  lemma {:induction false} AlwaysWellMade(s: State, idOf: Text -> Text, ops: seq<Operation>)
    requires AllWellMade(s, idOf)
    ensures AllWellMade(After(s, idOf, ops), idOf)
  {
    if ops != [] {
      var before := ops[..|ops| - 1];
      AlwaysWellMade(s, idOf, before);
      NextWellMade(After(s, idOf, before), idOf, ops[|ops| - 1]);
    }
  }

  /** Operation k confirms the draft as it stands: its actor or the system, the first revision, and the digest of just what
      the draft holds. */
  ghost predicate ConfirmsIt(s: State, op: Operation, draft: Draft) {
    && op.ConfirmDraft? && op.draftId in s.drafts && op.draftId == draft.draftId
    && s.drafts[op.draftId] == draft.(applied := false)
    && MayConfirm(draft, op.actorId) && op.revision == Ascii("rev-1")
    && op.digest == KeyText(draft.actorId, draft.profileId, draft.proposalId, draft.fieldPaths)
    && op.draftId !in s.appliedMutations
  }

  lemma AppliedNow(s: State, idOf: Text -> Text, op: Operation, id: Text)
    requires AllWellMade(s, idOf) && id in Next(s, idOf, op).drafts && Next(s, idOf, op).drafts[id].applied
    ensures (id in s.drafts && s.drafts[id] == Next(s, idOf, op).drafts[id])
         || ConfirmsIt(s, op, Next(s, idOf, op).drafts[id])
  {
    if op.ConfirmDraft? {
      ConfirmExactly(s, op.draftId, op.revision, op.digest, op.actorId);
    }
  }

  /** A draft that is applied was confirmed as it stands by an operation of the run. */
  lemma {:induction false} AppliedWasConfirmed(s: State, idOf: Text -> Text, ops: seq<Operation>, id: Text) returns (k: nat)
    requires AllWellMade(s, idOf) && id in After(s, idOf, ops).drafts && After(s, idOf, ops).drafts[id].applied
    requires id !in s.drafts
    ensures k < |ops| && ConfirmsIt(After(s, idOf, ops[..k]), ops[k], After(s, idOf, ops).drafts[id])
  {
    var n := |ops| - 1;
    var before := ops[..n];
    var t := After(s, idOf, before);
    AlwaysWellMade(s, idOf, before);
    AppliedNow(t, idOf, ops[n], id);
    if id in t.drafts && t.drafts[id] == After(s, idOf, ops).drafts[id] {
      k := AppliedWasConfirmed(s, idOf, before, id);
      assert before[..k] == ops[..k];
    } else {
      k := n;
    }
  }
}
