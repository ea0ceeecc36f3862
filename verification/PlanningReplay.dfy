/** What an item of a planning batch is answered, when it is decided and ever after, field by field. */
module PlanningReplays {
  import opened Ordering
  import opened CanonicalJson
  import opened PlanningLedger

  /** What the caller says of an item: its last input that names it, or else a next action without a digest. */
  predicate Says(inputs: seq<ItemInput>, id: Text, kind: ItemKind, digest: Text) {
    || (exists j :: 0 <= j < |inputs| && inputs[j] == ItemInput(id, kind, digest) && NamedLast(inputs, id, j))
    || (kind == NextAction && digest == [] && forall k :: 0 <= k < |inputs| ==> inputs[k].itemId != id)
  }

  predicate NamedLast(inputs: seq<ItemInput>, id: Text, j: nat) {
    forall k :: j < k < |inputs| ==> inputs[k].itemId != id
  }

  lemma {:induction false} SaysExactly(inputs: seq<ItemInput>, id: Text, kind: ItemKind, digest: Text)
    ensures Says(inputs, id, kind, digest) <==> kind == KindFor(inputs, id) && digest == DigestFor(inputs, id)
  {
    if inputs != [] {
      var before, last := inputs[..|inputs| - 1], inputs[|inputs| - 1];
      SaysExactly(before, id, kind, digest);
      if last.itemId == id {
        if j :| 0 <= j < |inputs| && inputs[j] == ItemInput(id, kind, digest) && NamedLast(inputs, id, j) {
          assert j == |inputs| - 1;
        }
        assert NamedLast(inputs, id, |inputs| - 1);
      } else {
        SaysBefore(inputs, id, kind, digest);
      }
    }
  }

  lemma SaysBefore(inputs: seq<ItemInput>, id: Text, kind: ItemKind, digest: Text)
    requires inputs != [] && inputs[|inputs| - 1].itemId != id
    ensures Says(inputs, id, kind, digest) <==> Says(inputs[..|inputs| - 1], id, kind, digest)
  {
    var before := inputs[..|inputs| - 1];
    if j :| 0 <= j < |inputs| && inputs[j] == ItemInput(id, kind, digest) && NamedLast(inputs, id, j) {
      assert before[j] == inputs[j] && NamedLast(before, id, j);
    }
    if j :| 0 <= j < |before| && before[j] == ItemInput(id, kind, digest) && NamedLast(before, id, j) {
      forall k | j < k < |inputs|
        ensures inputs[k].itemId != id
      {
        if k < |before| {
          assert before[k] == inputs[k];
        }
      }
      assert inputs[j] == before[j] && NamedLast(inputs, id, j);
    }
    if forall k :: 0 <= k < |before| ==> before[k].itemId != id {
      assert forall k :: 0 <= k < |before| ==> inputs[k] == before[k];
    }
  }

  /** The answer to an item kept so, committed under digest `was` then and `digest` now: applied is told as skipped under the
      same id, accepted under the same operation, failed and skipped as such; another digest fails it without any id. */
  predicate Replays(a: ItemResult, id: Text, kind: ItemKind, kept: ItemResult, was: Text, digest: Text) {
    && a.itemId == id && a.itemKind == kind
    && if digest != [] && digest != was then
         a.outcome == Failed && a.error == Some(PayloadMismatch) && a.appliedId == None && a.pendingId == None
       else
         && a.outcome == (if kept.outcome == Applied then Skipped else kept.outcome)
         && a.error == (if kept.outcome == Failed then Some(PreviousFailed) else None)
         && a.appliedId == (if kept.outcome == Applied && kept.appliedId != Some([]) then kept.appliedId else None)
         && a.pendingId == (if kept.outcome == Accepted && kept.pendingId != Some([]) then kept.pendingId else None)
  }

  /** Once decided an item is answered in every later commit of its batch, whatever is committed in between, from what was
      decided last. */
  lemma DecidedIsReplayed(
      ledger: Ledger, first: Batch, between: seq<Batch>, last: Batch, id: Text, told: ItemResult, kept: ItemResult,
      was: Text, kind: ItemKind, digest: Text)
    requires EndsWith(ledger, first, id, told, kept) && last.batchId == first.batchId && id in last.itemIds
    requires exists k :: Says(first.inputs, id, k, was)
    requires Says(last.inputs, id, kind, digest)
    ensures var answer := Answer(After(Commit(ledger, first).0, between), last, id);
      answer.Some? && Replays(answer.value, id, kind, kept, was, digest)
  {
    var k :| Says(first.inputs, id, k, was);
    SaysExactly(first.inputs, id, k, was);
    SaysExactly(last.inputs, id, kind, digest);
    RecordLast(ledger, first, FreshOutcomes(ledger, first), id);
    assert between[..0] == [];
    LaterAnswers(Commit(ledger, first).0, between, 0, last, id);
  }

  // ---------------------------------------------------------------- fresh outcomes

  /** Simulated outcomes are taken as given: the caller is told the first one for the item, the ledger keeps the last. */
  lemma SimulatedEnds(ledger: Ledger, b: Batch, id: Text, i: nat, j: nat)
    requires id in b.itemIds && MetaKey(b.batchId, id) !in ledger && i <= j < |b.simulated|
    requires b.simulated[i].itemId == b.simulated[j].itemId == id
    requires forall k :: 0 <= k < i || j < k < |b.simulated| ==> b.simulated[k].itemId != id
    ensures EndsWith(ledger, b, id, b.simulated[i], b.simulated[j])
  {
    var unseen := FreshIds(ledger, b.batchId, b.itemIds);
    FreshIdsFacts(ledger, b.batchId, b.itemIds);
    ChosenFirst(b.simulated, unseen, id, i);
    ChosenLast(b.simulated, unseen, id, j);
  }

  lemma {:induction false} ChosenFirst(simulated: seq<ItemResult>, unseen: seq<Text>, id: Text, i: nat)
    requires id in unseen && i < |simulated| && simulated[i].itemId == id
    requires forall k :: 0 <= k < i ==> simulated[k].itemId != id
    ensures Find(Chosen(simulated, unseen), id) == Some(simulated[i])
  {
    var before, last := simulated[..|simulated| - 1], simulated[|simulated| - 1];
    FindConcat(Chosen(before, unseen), if last.itemId in unseen then [last] else [], id);
    if i < |before| {
      ChosenFirst(before, unseen, id, i);
    } else {
      NoneChosen(before, unseen, id);
    }
  }

  lemma NoneChosen(simulated: seq<ItemResult>, unseen: seq<Text>, id: Text)
    requires forall k :: 0 <= k < |simulated| ==> simulated[k].itemId != id
    ensures Find(Chosen(simulated, unseen), id) == None
  {
    ChosenFacts(simulated, unseen);
    FindMeans(Chosen(simulated, unseen), id);
  }

  lemma {:induction false} ChosenLast(simulated: seq<ItemResult>, unseen: seq<Text>, id: Text, j: nat)
    requires id in unseen && j < |simulated| && simulated[j].itemId == id
    requires forall k :: j < k < |simulated| ==> simulated[k].itemId != id
    ensures FindLast(Chosen(simulated, unseen), id) == Some(simulated[j])
  {
    var before, last := simulated[..|simulated| - 1], simulated[|simulated| - 1];
    var kept, all := Chosen(before, unseen), Chosen(simulated, unseen);
    if j < |before| {
      ChosenLast(before, unseen, id, j);
      assert last.itemId != id;
    }
    if last.itemId in unseen {
      assert all[..|all| - 1] == kept;
    } else {
      assert all == kept;
    }
  }

  const UNDERSCORE: CodeUnit := 95

  /** The operation id of an accepted item: the text itself, filled up to 8 with underscores, cut off after 64. */
  predicate OperationId(t: Text, full: Text) {
    && |t| == (if |full| < 8 then 8 else if |full| > 64 then 64 else |full|)
    && forall k :: 0 <= k < |t| ==> t[k] == if k < |full| then full[k] else UNDERSCORE
  }

  /** The outcomes generated take turns. */
  function Turn(n: nat): Outcome {
    [Applied, Failed, Skipped, Accepted][n % 4]
  }

  /** What is generated for a fresh item depends on the lengths of the ids and on its place p among the fresh ones. */
  lemma GeneratedOutcome(batchId: Text, id: Text, p: nat)
    ensures var r := Generate(batchId, id, p); var n := |batchId| + |id| + p;
      && r.itemId == id && r.itemKind == NextAction
      && r.outcome == Turn(n)
      && r.appliedId == (if n % 4 == 0 then Some(Ascii("nextaction-") + batchId + Ascii("-") + id) else None)
      && r.error == (if n % 4 == 1 then Some(Conflict) else None)
      && (if n % 4 == 3 then r.pendingId.Some? && OperationId(r.pendingId.value, Ascii("op-") + batchId + Ascii("-") + id)
          else r.pendingId == None)
  {
  }

  /** The results of an item's first and last place among the fresh ones. */
  ghost predicate GeneratedAt(ledger: Ledger, b: Batch, id: Text, p: nat, q: nat, told: ItemResult, kept: ItemResult) {
    b.simulated == [] && StandsBetween(FreshIds(ledger, b.batchId, b.itemIds), id, p, q)
    && told == Generate(b.batchId, id, p) && kept == Generate(b.batchId, id, q)
  }

  /** Nothing simulated, a fresh item is told what its first place generates, and the ledger keeps that of its last. */
  lemma GeneratedKept(ledger: Ledger, b: Batch, id: Text, p: nat, q: nat, told: ItemResult, kept: ItemResult)
    requires GeneratedAt(ledger, b, id, p, q, told, kept)
    ensures EndsWith(ledger, b, id, told, kept) && Answer(ledger, b, id) == Some(told)
  {
    GeneratedEnds(ledger, b, id, p, q);
    AnswerOf(ledger, b, id);
  }

  /** How a generated outcome is answered later. */
  predicate AnsweredLater(answer: Option<ItemResult>, batchId: Text, id: Text, place: nat) {
    answer.Some? &&
    var (a, n) := (answer.value, |batchId| + |id| + place);
    && a.outcome == (if n % 4 == 0 then Skipped else Turn(n))
    && a.appliedId == (if n % 4 == 0 then Some(Ascii("nextaction-") + batchId + Ascii("-") + id) else None)
    && a.error == (if n % 4 == 1 then Some(PreviousFailed) else None)
    && (if n % 4 == 3 then
          a.pendingId.Some? && OperationId(a.pendingId.value, Ascii("op-") + batchId + Ascii("-") + id)
        else a.pendingId == None)
  }

  lemma LaterFromKept(
      answer: Option<ItemResult>, batchId: Text, id: Text, q: nat, kind: ItemKind, kept: ItemResult, was: Text, digest: Text)
    requires kept == Generate(batchId, id, q) && answer.Some? && Replays(answer.value, id, kind, kept, was, digest)
    requires (digest == [] || digest == was)
    ensures AnsweredLater(answer, batchId, id, q)
  {
    GeneratedOutcome(batchId, id, q);
    assert |Ascii("nextaction-")| == 11;
  }

  /** Committed again, under the same or no digest, it is answered from what its last place q generated. */
  lemma GeneratedIsReplayed(
      ledger: Ledger, first: Batch, between: seq<Batch>, last: Batch, id: Text, p: nat, q: nat, told: ItemResult,
      kept: ItemResult, was: Text, kind: ItemKind, digest: Text)
    requires GeneratedAt(ledger, first, id, p, q, told, kept) && last.batchId == first.batchId && id in last.itemIds
    requires (exists k :: Says(first.inputs, id, k, was)) && Says(last.inputs, id, kind, digest)
    requires digest == [] || digest == was
    ensures var later := Answer(After(Commit(ledger, first).0, between), last, id);
      AnsweredLater(later, first.batchId, id, q)
  {
    GeneratedKept(ledger, first, id, p, q, told, kept);
    var later := After(Commit(ledger, first).0, between);
    DecidedIsReplayed(ledger, first, between, last, id, told, kept, was, kind, digest);
    LaterFromKept(Answer(later, last, id), first.batchId, id, q, kind, kept, was, digest);
  }
}
