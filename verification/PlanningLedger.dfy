/** Planning batches: outcomes are recorded per batch item once, and replayed ever after. */
module PlanningLedger {
  import opened Ordering
  import opened CanonicalJson
  import opened Keys

  datatype ItemKind = NextAction | Availability | Suppression

  datatype Outcome = Applied | Accepted | Failed | Skipped

  datatype ItemError = PayloadMismatch | PreviousFailed | Conflict

  /** What the caller says of an item; an absent digest is the empty text. */
  datatype ItemInput = ItemInput(itemId: Text, itemKind: ItemKind, payloadDigest: Text)

  datatype ItemResult = ItemResult(
    itemId: Text,
    itemKind: ItemKind,
    outcome: Outcome,
    appliedId: Option<Text>,
    pendingId: Option<Text>,
    error: Option<ItemError>)

  datatype Meta = Meta(payloadDigest: Text, outcome: Outcome, appliedRevisionId: Option<Text>, pendingId: Option<Text>)

  type Ledger = map<Text, Meta>

  datatype Batch = Batch(
    batchId: Text, itemIds: seq<Text>, inputs: seq<ItemInput>, simulated: seq<ItemResult>)

  function MetaKey(batchId: Text, itemId: Text): Text {
    Joined(batchId, itemId)
  }

  /** The last input given for an item. */
  function InputFor(inputs: seq<ItemInput>, itemId: Text): Option<ItemInput> {
    if inputs == [] then None
    else if inputs[|inputs| - 1].itemId == itemId then Some(inputs[|inputs| - 1])
    else InputFor(inputs[..|inputs| - 1], itemId)
  }

  function DigestFor(inputs: seq<ItemInput>, itemId: Text): Text {
    match InputFor(inputs, itemId)
    case Some(input) => input.payloadDigest
    case None => []
  }

  function KindFor(inputs: seq<ItemInput>, itemId: Text): ItemKind {
    match InputFor(inputs, itemId)
    case Some(input) => input.itemKind
    case None => NextAction
  }

  /** The answer for an item recorded before. An empty digest is never compared. */
  function Replay(was: Meta, itemId: Text, kind: ItemKind, digest: Text): ItemResult {
    if digest != [] && was.payloadDigest != digest then
      ItemResult(itemId, kind, Failed, None, None, Some(PayloadMismatch))
    else
      match was.outcome
      case Accepted =>
        ItemResult(itemId, kind, Accepted, None, if was.pendingId == Some([]) then None else was.pendingId, None)
      case Applied => ItemResult(itemId, kind, Skipped, was.appliedRevisionId, None, None)
      case Failed => ItemResult(itemId, kind, Failed, None, None, Some(PreviousFailed))
      case Skipped => ItemResult(itemId, kind, Skipped, None, None, None)
  }

  function Replayed(ledger: Ledger, b: Batch, ids: seq<Text>): seq<ItemResult> {
    if ids == [] then []
    else
      var id := ids[|ids| - 1];
      var key := MetaKey(b.batchId, id);
      Replayed(ledger, b, ids[..|ids| - 1])
      + if key in ledger then [Replay(ledger[key], id, KindFor(b.inputs, id), DigestFor(b.inputs, id))] else []
  }

  function FreshIds(ledger: Ledger, batchId: Text, ids: seq<Text>): seq<Text> {
    if ids == [] then []
    else
      var id := ids[|ids| - 1];
      FreshIds(ledger, batchId, ids[..|ids| - 1]) + if MetaKey(batchId, id) in ledger then [] else [id]
  }

  // ---------------------------------------------------------------- fresh outcomes

  /** padEnd(8, '_').slice(0, 64). */
  function PadOperation(t: Text): Text {
    var padded := if |t| < 8 then t + seq(8 - |t|, _ => 95) else t;
    if |padded| > 64 then padded[..64] else padded
  }

  function Generate(batchId: Text, itemId: Text, i: nat): ItemResult {
    var k := (|batchId| + |itemId| + i) % 4;
    if k == 0 then
      ItemResult(itemId, NextAction, Applied, Some(Ascii("nextaction-") + batchId + Ascii("-") + itemId), None, None)
    else if k == 1 then ItemResult(itemId, NextAction, Failed, None, None, Some(Conflict))
    else if k == 2 then ItemResult(itemId, NextAction, Skipped, None, None, None)
    else
      ItemResult(itemId, NextAction, Accepted, None,
                 Some(PadOperation(Ascii("op-") + batchId + Ascii("-") + itemId)), None)
  }

  function Generated(batchId: Text, ids: seq<Text>): (r: seq<ItemResult>)
    ensures |r| == |ids| && forall i :: 0 <= i < |ids| ==> r[i].itemId == ids[i]
  {
    seq(|ids|, i requires 0 <= i < |ids| => Generate(batchId, ids[i], i))
  }

  function Chosen(simulated: seq<ItemResult>, unseen: seq<Text>): seq<ItemResult> {
    if simulated == [] then []
    else
      var last := simulated[|simulated| - 1];
      Chosen(simulated[..|simulated| - 1], unseen) + if last.itemId in unseen then [last] else []
  }

  function FreshOutcomes(ledger: Ledger, b: Batch): seq<ItemResult> {
    var unseen := FreshIds(ledger, b.batchId, b.itemIds);
    if b.simulated != [] then Chosen(b.simulated, unseen) else Generated(b.batchId, unseen)
  }

  // ---------------------------------------------------------------- recording and answering

  /** An empty id is not kept. */
  function NonEmpty(t: Option<Text>): Option<Text> {
    if t == Some([]) then None else t
  }

  function MetaOf(r: ItemResult, inputs: seq<ItemInput>): Meta {
    Meta(DigestFor(inputs, r.itemId), r.outcome, if r.outcome.Applied? then NonEmpty(r.appliedId) else None,
         if r.outcome.Accepted? then r.pendingId else None)
  }

  function Record(ledger: Ledger, b: Batch, outcomes: seq<ItemResult>): Ledger {
    if outcomes == [] then ledger
    else
      var last := outcomes[|outcomes| - 1];
      Record(ledger, b, outcomes[..|outcomes| - 1])[MetaKey(b.batchId, last.itemId) := MetaOf(last, b.inputs)]
  }

  /** Array.prototype.find by item id. */
  function Find(results: seq<ItemResult>, itemId: Text): (r: Option<ItemResult>)
    ensures r.Some? ==> r.value.itemId == itemId
  {
    if results == [] then None
    else if results[0].itemId == itemId then Some(results[0])
    else Find(results[1..], itemId)
  }

  /** One answer per requested item for which there is any, in the caller's order. */
  function Ordered(ids: seq<Text>, all: seq<ItemResult>): seq<ItemResult> {
    if ids == [] then []
    else
      var found := Find(all, ids[|ids| - 1]);
      Ordered(ids[..|ids| - 1], all) + if found.Some? then [found.value] else []
  }

  function Commit(ledger: Ledger, b: Batch): (Ledger, seq<ItemResult>) {
    var outcomes := FreshOutcomes(ledger, b);
    (Record(ledger, b, outcomes), Ordered(b.itemIds, Replayed(ledger, b, b.itemIds) + outcomes))
  }

  function CountOutcome(items: seq<ItemResult>, o: Outcome): nat {
    if items == [] then 0
    else CountOutcome(items[..|items| - 1], o) + if items[|items| - 1].outcome == o then 1 else 0
  }

  // ---------------------------------------------------------------- facts about the parts

  lemma {:induction false} FreshIdsFacts(ledger: Ledger, batchId: Text, ids: seq<Text>)
    ensures forall id :: id in FreshIds(ledger, batchId, ids) <==> id in ids && MetaKey(batchId, id) !in ledger
    ensures NoDuplicates(ids) ==> NoDuplicates(FreshIds(ledger, batchId, ids))
  {
    if ids != [] {
      FreshIdsFacts(ledger, batchId, ids[..|ids| - 1]);
      assert ids == ids[..|ids| - 1] + [ids[|ids| - 1]];
    }
  }

  lemma {:induction false} ChosenFacts(simulated: seq<ItemResult>, unseen: seq<Text>)
    ensures forall r :: r in Chosen(simulated, unseen) <==> r in simulated && r.itemId in unseen
  {
    if simulated != [] {
      ChosenFacts(simulated[..|simulated| - 1], unseen);
      assert simulated == simulated[..|simulated| - 1] + [simulated[|simulated| - 1]];
    }
  }

  /** Only items not recorded before get a fresh outcome. */
  lemma FreshOutcomesAreFresh(ledger: Ledger, b: Batch)
    ensures forall r :: r in FreshOutcomes(ledger, b) ==> r.itemId in b.itemIds && MetaKey(b.batchId, r.itemId) !in ledger
  {
    var unseen := FreshIds(ledger, b.batchId, b.itemIds);
    FreshIdsFacts(ledger, b.batchId, b.itemIds);
    ChosenFacts(b.simulated, unseen);
    if b.simulated == [] {
      forall r | r in FreshOutcomes(ledger, b)
        ensures r.itemId in unseen
      {
        var i :| 0 <= i < |unseen| && Generated(b.batchId, unseen)[i] == r;
        assert unseen[i] == r.itemId;
      }
    }
  }

  lemma {:induction false} RecordKeeps(ledger: Ledger, b: Batch, outcomes: seq<ItemResult>, key: Text)
    requires forall r :: r in outcomes ==> MetaKey(b.batchId, r.itemId) != key
    ensures key in Record(ledger, b, outcomes) <==> key in ledger
    ensures key in ledger ==> Record(ledger, b, outcomes)[key] == ledger[key]
  {
    if outcomes != [] {
      assert outcomes == outcomes[..|outcomes| - 1] + [outcomes[|outcomes| - 1]];
      RecordKeeps(ledger, b, outcomes[..|outcomes| - 1], key);
    }
  }

  lemma SameBatchKey(batchId: Text, a: Text, b: Text)
    ensures MetaKey(batchId, a) == MetaKey(batchId, b) <==> a == b
  {
    if MetaKey(batchId, a) == MetaKey(batchId, b) {
      HeadsNest(batchId, a, batchId, b);
    }
  }

  // ---------------------------------------------------------------- any run of commits

  function After(ledger: Ledger, batches: seq<Batch>): Ledger {
    if batches == [] then ledger
    else Commit(After(ledger, batches[..|batches| - 1]), batches[|batches| - 1]).0
  }

  /** What was recorded for an item is never overwritten by a later commit. */
  lemma CommitKeeps(ledger: Ledger, b: Batch, key: Text)
    requires key in ledger
    ensures key in Commit(ledger, b).0 && Commit(ledger, b).0[key] == ledger[key]
  {
    FreshOutcomesAreFresh(ledger, b);
    RecordKeeps(ledger, b, FreshOutcomes(ledger, b), key);
  }

  lemma {:induction false} WriteOnce(ledger: Ledger, batches: seq<Batch>, n: nat, key: Text)
    requires n <= |batches| && key in After(ledger, batches[..n])
    ensures key in After(ledger, batches) && After(ledger, batches)[key] == After(ledger, batches[..n])[key]
    decreases |batches|
  {
    if n < |batches| {
      var before := batches[..|batches| - 1];
      assert before[..n] == batches[..n];
      WriteOnce(ledger, before, n, key);
      CommitKeeps(After(ledger, before), batches[|batches| - 1], key);
    } else {
      assert batches[..n] == batches;
    }
  }

  // ---------------------------------------------------------------- applied at most once

  ghost predicate Proper(b: Batch) {
    && NoDuplicates(b.itemIds)
    && forall i, j :: 0 <= i < j < |b.simulated| ==> b.simulated[i].itemId != b.simulated[j].itemId
  }

  ghost predicate DistinctItems(results: seq<ItemResult>) {
    forall i, j :: 0 <= i < j < |results| ==> results[i].itemId != results[j].itemId
  }

  /** How often the answers report an item of this key as APPLIED. */
  function AppliedReports(batchId: Text, items: seq<ItemResult>, key: Text): nat {
    if items == [] then 0
    else
      var last := items[|items| - 1];
      AppliedReports(batchId, items[..|items| - 1], key)
      + if last.outcome.Applied? && MetaKey(batchId, last.itemId) == key then 1 else 0
  }

  predicate SaysApplied(r: Option<ItemResult>) {
    r.Some? && r.value.outcome.Applied?
  }

  predicate IsApplied(ledger: Ledger, key: Text) {
    key in ledger && ledger[key].outcome.Applied?
  }

  lemma {:induction false} ChosenDistinct(simulated: seq<ItemResult>, unseen: seq<Text>)
    requires DistinctItems(simulated)
    ensures DistinctItems(Chosen(simulated, unseen))
  {
    if simulated != [] {
      var before, last := simulated[..|simulated| - 1], simulated[|simulated| - 1];
      ChosenDistinct(before, unseen);
      ChosenFacts(before, unseen);
      var kept := Chosen(before, unseen);
      forall i | 0 <= i < |kept|
        ensures kept[i].itemId != last.itemId
      {
        assert kept[i] in before;
      }
    }
  }

  lemma FreshOutcomesDistinct(ledger: Ledger, b: Batch)
    requires Proper(b)
    ensures DistinctItems(FreshOutcomes(ledger, b))
  {
    FreshIdsFacts(ledger, b.batchId, b.itemIds);
    ChosenDistinct(b.simulated, FreshIds(ledger, b.batchId, b.itemIds));
  }

  /** Among outcomes of distinct items the ledger gets what the item's own outcome says. */
  lemma {:induction false} RecordOwn(ledger: Ledger, b: Batch, outcomes: seq<ItemResult>, i: nat)
    requires DistinctItems(outcomes) && i < |outcomes|
    ensures var key := MetaKey(b.batchId, outcomes[i].itemId);
      key in Record(ledger, b, outcomes) && Record(ledger, b, outcomes)[key] == MetaOf(outcomes[i], b.inputs)
  {
    var before, last := outcomes[..|outcomes| - 1], outcomes[|outcomes| - 1];
    if i < |before| {
      RecordOwn(ledger, b, before, i);
      assert before[i] == outcomes[i];
      SameBatchKey(b.batchId, outcomes[i].itemId, last.itemId);
    }
  }

  lemma {:induction false} FindConcat(a: seq<ItemResult>, b: seq<ItemResult>, itemId: Text)
    ensures Find(a + b, itemId) == if Find(a, itemId).Some? then Find(a, itemId) else Find(b, itemId)
  {
    if a == [] {
      assert a + b == b;
    } else {
      FindConcat(a[1..], b, itemId);
      assert (a + b)[1..] == a[1..] + b;
    }
  }

  lemma {:induction false} FindMeans(results: seq<ItemResult>, itemId: Text)
    ensures Find(results, itemId).Some? ==> exists i :: 0 <= i < |results| && results[i] == Find(results, itemId).value
    ensures Find(results, itemId).None? ==> forall i :: 0 <= i < |results| ==> results[i].itemId != itemId
  {
    if results != [] && results[0].itemId != itemId {
      FindMeans(results[1..], itemId);
      if Find(results[1..], itemId).Some? {
        var i :| 0 <= i < |results[1..]| && results[1..][i] == Find(results[1..], itemId).value;
        assert results[i + 1] == results[1..][i];
      } else {
        assert forall i :: 0 < i < |results| ==> results[i] == results[1..][i - 1];
      }
    }
  }

  /** Replays answer for recorded items only, and never with APPLIED. */
  lemma {:induction false} ReplayedFacts(ledger: Ledger, b: Batch, ids: seq<Text>)
    ensures forall r :: r in Replayed(ledger, b, ids) ==>
      MetaKey(b.batchId, r.itemId) in ledger && !r.outcome.Applied?
      && r == Replay(ledger[MetaKey(b.batchId, r.itemId)], r.itemId, KindFor(b.inputs, r.itemId), DigestFor(b.inputs, r.itemId))
    ensures forall id :: id in ids && MetaKey(b.batchId, id) in ledger ==>
      exists i :: 0 <= i < |Replayed(ledger, b, ids)| && Replayed(ledger, b, ids)[i].itemId == id
  {
    if ids != [] {
      var before, last := ids[..|ids| - 1], ids[|ids| - 1];
      ReplayedFacts(ledger, b, before);
      assert ids == before + [last];
      var was, now := Replayed(ledger, b, before), Replayed(ledger, b, ids);
      forall id | id in ids && MetaKey(b.batchId, id) in ledger
        ensures exists i :: 0 <= i < |now| && now[i].itemId == id
      {
        if id == last {
          assert now[|now| - 1].itemId == id;
        } else {
          assert id in before;
          var i :| 0 <= i < |was| && was[i].itemId == id;
          assert now[i] == was[i];
        }
      }
    }
  }

  /** The answer to one requested item. */
  function Answer(ledger: Ledger, b: Batch, id: Text): Option<ItemResult> {
    Find(Replayed(ledger, b, b.itemIds) + FreshOutcomes(ledger, b), id)
  }

  /** A recorded item is answered from the ledger, any other by its fresh outcome. */
  lemma AnswerOf(ledger: Ledger, b: Batch, id: Text)
    requires id in b.itemIds
    ensures var key := MetaKey(b.batchId, id);
      Answer(ledger, b, id) ==
        if key in ledger then Some(Replay(ledger[key], id, KindFor(b.inputs, id), DigestFor(b.inputs, id)))
        else Find(FreshOutcomes(ledger, b), id)
  {
    var replayed := Replayed(ledger, b, b.itemIds);
    FindConcat(replayed, FreshOutcomes(ledger, b), id);
    ReplayedFacts(ledger, b, b.itemIds);
    FindMeans(replayed, id);
    assert Find(replayed, id).Some? ==> Find(replayed, id).value in replayed;
    if MetaKey(b.batchId, id) in ledger {
      var i :| 0 <= i < |replayed| && replayed[i].itemId == id;
    }
  }

  lemma ReportsAppend(batchId: Text, items: seq<ItemResult>, last: ItemResult, key: Text)
    ensures AppliedReports(batchId, items + [last], key)
         == AppliedReports(batchId, items, key) + if last.outcome.Applied? && MetaKey(batchId, last.itemId) == key then 1 else 0
  {
    assert (items + [last])[..|items|] == items;
  }

  lemma LastCounted<T>(s: seq<T>, x: T)
    requires s != []
    ensures multiset(s)[x] == multiset(s[..|s| - 1])[x] + if s[|s| - 1] == x then 1 else 0
  {
    assert s == s[..|s| - 1] + [s[|s| - 1]];
  }

  /** The answer found for an item is given as often as it is asked for. */
  lemma {:induction false} OrderedReports(batchId: Text, ids: seq<Text>, all: seq<ItemResult>, id: Text)
    ensures AppliedReports(batchId, Ordered(ids, all), MetaKey(batchId, id))
         == if SaysApplied(Find(all, id)) then multiset(ids)[id] else 0
  {
    if ids != [] {
      var before, last := ids[..|ids| - 1], ids[|ids| - 1];
      OrderedReports(batchId, before, all, id);
      LastCounted(ids, id);
      SameBatchKey(batchId, last, id);
      var found := Find(all, last);
      if found.Some? {
        ReportsAppend(batchId, Ordered(before, all), found.value, MetaKey(batchId, id));
      } else {
        assert Ordered(ids, all) == Ordered(before, all);
      }
    }
  }

  lemma {:induction false} NoReports(batchId: Text, ids: seq<Text>, all: seq<ItemResult>, key: Text)
    requires forall i :: 0 <= i < |ids| ==> MetaKey(batchId, ids[i]) != key
    ensures AppliedReports(batchId, Ordered(ids, all), key) == 0
  {
    if ids != [] {
      var before, last := ids[..|ids| - 1], ids[|ids| - 1];
      NoReports(batchId, before, all, key);
      var found := Find(all, last);
      var was := Ordered(before, all);
      if found.Some? {
        assert Ordered(ids, all)[..|was|] == was;
      } else {
        assert Ordered(ids, all) == was;
      }
    }
  }

  /** A commit reports an item as APPLIED exactly when it is the one that records it so. */
  lemma CommitReports(ledger: Ledger, b: Batch, id: Text)
    requires Proper(b) && id in b.itemIds
    ensures var (after, items) := Commit(ledger, b); var key := MetaKey(b.batchId, id);
      AppliedReports(b.batchId, items, key) == (if IsApplied(after, key) then 1 else 0) - if IsApplied(ledger, key) then 1 else 0
  {
    var (after, items) := Commit(ledger, b);
    var outcomes, key := FreshOutcomes(ledger, b), MetaKey(b.batchId, id);
    OrderedReports(b.batchId, b.itemIds, Replayed(ledger, b, b.itemIds) + outcomes, id);
    OnceEach(b.itemIds, id);
    AnswerOf(ledger, b, id);
    if key in ledger {
      CommitKeeps(ledger, b, key);
    } else {
      FindMeans(outcomes, id);
      FreshOutcomesDistinct(ledger, b);
      if Find(outcomes, id).Some? {
        var i :| 0 <= i < |outcomes| && outcomes[i] == Find(outcomes, id).value;
        RecordOwn(ledger, b, outcomes, i);
      } else {
        forall i | 0 <= i < |outcomes| {
          SameBatchKey(b.batchId, outcomes[i].itemId, id);
        }
        OthersKept(ledger, b, key);
      }
    }
  }

  lemma OthersKept(ledger: Ledger, b: Batch, key: Text)
    requires forall i :: 0 <= i < |FreshOutcomes(ledger, b)| ==> MetaKey(b.batchId, FreshOutcomes(ledger, b)[i].itemId) != key
    ensures key in Commit(ledger, b).0 <==> key in ledger
    ensures key in ledger ==> Commit(ledger, b).0[key] == ledger[key]
  {
    RecordKeeps(ledger, b, FreshOutcomes(ledger, b), key);
  }

  lemma UnrequestedKept(ledger: Ledger, b: Batch, key: Text)
    requires forall i :: 0 <= i < |b.itemIds| ==> MetaKey(b.batchId, b.itemIds[i]) != key
    ensures IsApplied(Commit(ledger, b).0, key) <==> IsApplied(ledger, key)
    ensures AppliedReports(b.batchId, Commit(ledger, b).1, key) == 0
  {
    FreshOutcomesAreFresh(ledger, b);
    forall i | 0 <= i < |FreshOutcomes(ledger, b)|
      ensures MetaKey(b.batchId, FreshOutcomes(ledger, b)[i].itemId) != key
    {
      assert FreshOutcomes(ledger, b)[i].itemId in b.itemIds;
    }
    OthersKept(ledger, b, key);
    NoReports(b.batchId, b.itemIds, Replayed(ledger, b, b.itemIds) + FreshOutcomes(ledger, b), key);
  }

  /** How often a run of commits reports the item of this key as APPLIED. */
  function Reports(ledger: Ledger, batches: seq<Batch>, key: Text): nat {
    if batches == [] then 0
    else
      var before, last := batches[..|batches| - 1], batches[|batches| - 1];
      Reports(ledger, before, key) + AppliedReports(last.batchId, Commit(After(ledger, before), last).1, key)
  }

  /** Over any run of commits with distinct items, an item not applied before is reported as APPLIED at most once:
      exactly once if the ledger ends up saying so, and never otherwise. */
  lemma {:induction false} AppliedAtMostOnce(ledger: Ledger, batches: seq<Batch>, key: Text)
    requires !IsApplied(ledger, key) && forall i :: 0 <= i < |batches| ==> Proper(batches[i])
    ensures Reports(ledger, batches, key) == if IsApplied(After(ledger, batches), key) then 1 else 0
  {
    if batches != [] {
      var before, last := batches[..|batches| - 1], batches[|batches| - 1];
      AppliedAtMostOnce(ledger, before, key);
      var was := After(ledger, before);
      if i :| 0 <= i < |last.itemIds| && MetaKey(last.batchId, last.itemIds[i]) == key {
        CommitReports(was, last, last.itemIds[i]);
      } else {
        UnrequestedKept(was, last, key);
      }
    }
  }

  // ---------------------------------------------------------------- replay

  lemma {:induction false} RecordCovers(ledger: Ledger, b: Batch, outcomes: seq<ItemResult>, i: nat)
    requires i < |outcomes|
    ensures MetaKey(b.batchId, outcomes[i].itemId) in Record(ledger, b, outcomes)
  {
    if i < |outcomes| - 1 {
      RecordCovers(ledger, b, outcomes[..|outcomes| - 1], i);
    }
  }

  /** After a commit nothing in it is left to record. */
  lemma NothingFreshAgain(ledger: Ledger, b: Batch)
    ensures FreshOutcomes(Commit(ledger, b).0, b) == []
  {
    var after := Commit(ledger, b).0;
    var outcomes, again := FreshOutcomes(ledger, b), FreshOutcomes(after, b);
    FreshOutcomesAreFresh(after, b);
    if again != [] {
      var id := again[0].itemId;
      assert again[0] in again;
      var key := MetaKey(b.batchId, id);
      assert id in b.itemIds && key !in after;
      if key in ledger {
        CommitKeeps(ledger, b, key);
      }
      FreshIdsFacts(ledger, b.batchId, b.itemIds);
      ChosenFacts(b.simulated, FreshIds(after, b.batchId, b.itemIds));
      OutcomeGiven(ledger, b, again[0]);
      var i :| 0 <= i < |outcomes| && outcomes[i].itemId == id;
      RecordCovers(ledger, b, outcomes, i);
      assert false;
    }
  }

  lemma OutcomeGiven(ledger: Ledger, b: Batch, r: ItemResult)
    requires r.itemId in b.itemIds && MetaKey(b.batchId, r.itemId) !in ledger && (b.simulated != [] ==> r in b.simulated)
    ensures exists i :: 0 <= i < |FreshOutcomes(ledger, b)| && FreshOutcomes(ledger, b)[i].itemId == r.itemId
  {
    var unseen := FreshIds(ledger, b.batchId, b.itemIds);
    FreshIdsFacts(ledger, b.batchId, b.itemIds);
    if b.simulated != [] {
      ChosenFacts(b.simulated, unseen);
      assert r in FreshOutcomes(ledger, b);
    } else {
      var i :| 0 <= i < |unseen| && unseen[i] == r.itemId;
      assert FreshOutcomes(ledger, b)[i].itemId == r.itemId;
    }
  }

  /** Committed a second time the same batch records nothing, and is answered as it will be every time after. */
  lemma ReplayIsFixpoint(ledger: Ledger, b: Batch)
    ensures var (after, items) := Commit(ledger, b);
      Commit(after, b).0 == after && Commit(Commit(after, b).0, b) == Commit(after, b)
  {
    NothingFreshAgain(ledger, b);
  }

  /** Once recorded, an item is answered from its record in every later commit of its batch, whatever came between. */
  lemma LaterAnswers(ledger: Ledger, batches: seq<Batch>, n: nat, last: Batch, id: Text)
    requires n <= |batches| && id in last.itemIds
    requires MetaKey(last.batchId, id) in After(ledger, batches[..n])
    ensures var was := After(ledger, batches[..n])[MetaKey(last.batchId, id)];
      Answer(After(ledger, batches), last, id) == Some(Replay(was, id, KindFor(last.inputs, id), DigestFor(last.inputs, id)))
  {
    WriteOnce(ledger, batches, n, MetaKey(last.batchId, id));
    AnswerOf(After(ledger, batches), last, id);
  }

  /** A fresh outcome is what is recorded, so an accepted item keeps its pending operation for good. */
  lemma AcceptedIsReplayed(ledger: Ledger, first: Batch, between: seq<Batch>, last: Batch, i: nat)
    requires Proper(first) && i < |FreshOutcomes(ledger, first)| && last.batchId == first.batchId
    requires var r := FreshOutcomes(ledger, first)[i];
      && r.outcome.Accepted? && r.pendingId.Some? && r.pendingId.value != [] && r.itemId in last.itemIds
      && (DigestFor(last.inputs, r.itemId) == [] || DigestFor(last.inputs, r.itemId) == DigestFor(first.inputs, r.itemId))
    ensures var r := FreshOutcomes(ledger, first)[i];
      Answer(After(Commit(ledger, first).0, between), last, r.itemId)
      == Some(ItemResult(r.itemId, KindFor(last.inputs, r.itemId), Accepted, None, r.pendingId, None))
  {
    var r := FreshOutcomes(ledger, first)[i];
    FreshOutcomesDistinct(ledger, first);
    RecordOwn(ledger, first, FreshOutcomes(ledger, first), i);
    assert between[..0] == [];
    LaterAnswers(Commit(ledger, first).0, between, 0, last, r.itemId);
  }

  // ---------------------------------------------------------------- the summary

  lemma {:induction false} CountsAddUp(items: seq<ItemResult>)
    ensures CountOutcome(items, Applied) + CountOutcome(items, Accepted) + CountOutcome(items, Failed)
          + CountOutcome(items, Skipped) == |items|
  {
    if items != [] {
      CountsAddUp(items[..|items| - 1]);
    }
  }

  lemma {:induction false} OrderedComplete(ids: seq<Text>, all: seq<ItemResult>)
    requires forall i :: 0 <= i < |ids| ==> Find(all, ids[i]).Some?
    ensures |Ordered(ids, all)| == |ids| && forall i :: 0 <= i < |ids| ==> Ordered(ids, all)[i].itemId == ids[i]
  {
    if ids != [] {
      OrderedComplete(ids[..|ids| - 1], all);
    }
  }

  /** Without simulated outcomes every item is answered, in the caller's order. */
  lemma EveryItemAnswered(ledger: Ledger, b: Batch)
    requires b.simulated == []
    ensures var items := Commit(ledger, b).1;
      |items| == |b.itemIds| && forall i :: 0 <= i < |items| ==> items[i].itemId == b.itemIds[i]
  {
    var outcomes := FreshOutcomes(ledger, b);
    forall i | 0 <= i < |b.itemIds|
      ensures Answer(ledger, b, b.itemIds[i]).Some?
    {
      var id := b.itemIds[i];
      AnswerOf(ledger, b, id);
      if MetaKey(b.batchId, id) !in ledger {
        OutcomeGiven(ledger, b, ItemResult(id, NextAction, Skipped, None, None, None));
        FindMeans(outcomes, id);
      }
    }
    OrderedComplete(b.itemIds, Replayed(ledger, b, b.itemIds) + outcomes);
  }

  // ---------------------------------------------------------------- where the hypotheses matter

  /** Batches with different separator-free ids leave each other's records alone. */
  lemma BatchesIndependent(ledger: Ledger, b: Batch, other: Text, id: Text)
    requires ColonFree(b.batchId) && ColonFree(other) && b.batchId != other
    ensures MetaKey(other, id) in Commit(ledger, b).0 <==> MetaKey(other, id) in ledger
    ensures MetaKey(other, id) in ledger ==> Commit(ledger, b).0[MetaKey(other, id)] == ledger[MetaKey(other, id)]
  {
    forall i | 0 <= i < |FreshOutcomes(ledger, b)|
      ensures MetaKey(b.batchId, FreshOutcomes(ledger, b)[i].itemId) != MetaKey(other, id)
    {
      JoinedInjective(b.batchId, FreshOutcomes(ledger, b)[i].itemId, other, id);
    }
    OthersKept(ledger, b, MetaKey(other, id));
  }

  /** Two batches share a record for some items exactly when the shorter id and a colon start the other id. */
  lemma BatchesShareExactly(a: Text, b: Text)
    requires a != b && |a| <= |b|
    ensures (exists x, y :: MetaKey(a, x) == MetaKey(b, y)) <==> a + [COLON] <= b
  {
    if x, y :| MetaKey(a, x) == MetaKey(b, y) {
      HeadsNest(a, x, b, y);
      assert (a + [COLON])[..|a| + 1] == (b + [COLON])[..|a| + 1] == b[..|a| + 1];
    }
    if a + [COLON] <= b {
      var rest := b[|a| + 1..];
      assert b == Joined(a, rest);
      assert MetaKey(a, Joined(rest, [])) == MetaKey(b, []);
    }
  }

  // ---------------------------------------------------------------- items asked for more than once

  /** The last outcome of an item, which is the one the ledger keeps. */
  function FindLast(results: seq<ItemResult>, itemId: Text): (r: Option<ItemResult>)
    ensures r.Some? ==> r.value.itemId == itemId
  {
    if results == [] then None
    else if results[|results| - 1].itemId == itemId then Some(results[|results| - 1])
    else FindLast(results[..|results| - 1], itemId)
  }

  lemma {:induction false} RecordLast(ledger: Ledger, b: Batch, outcomes: seq<ItemResult>, id: Text)
    ensures var key, last := MetaKey(b.batchId, id), FindLast(outcomes, id);
      if last.Some? then key in Record(ledger, b, outcomes) && Record(ledger, b, outcomes)[key] == MetaOf(last.value, b.inputs)
      else (key in Record(ledger, b, outcomes) <==> key in ledger)
  {
    if outcomes != [] {
      RecordLast(ledger, b, outcomes[..|outcomes| - 1], id);
      SameBatchKey(b.batchId, outcomes[|outcomes| - 1].itemId, id);
    }
  }

  lemma {:induction false} FirstAndLast(results: seq<ItemResult>, id: Text)
    ensures FindLast(results, id).Some? <==> id in Map((r: ItemResult) => r.itemId, results)
    ensures Find(results, id).Some? <==> FindLast(results, id).Some?
  {
    var ids := Map((r: ItemResult) => r.itemId, results);
    FindMeans(results, id);
    if results != [] {
      var before, last := results[..|results| - 1], results[|results| - 1];
      FirstAndLast(before, id);
      assert results == before + [last];
      FindConcat(before, [last], id);
      assert ids[|results| - 1] == last.itemId;
      if Find(results, id).Some? {
        var i :| 0 <= i < |results| && results[i] == Find(results, id).value;
        assert ids[i] == id;
      }
    }
  }

  /** A commit gives its answer for an item as often as the item is asked for. */
  lemma ReportsOfAnswer(ledger: Ledger, b: Batch, id: Text)
    ensures AppliedReports(b.batchId, Commit(ledger, b).1, MetaKey(b.batchId, id))
         == if SaysApplied(Answer(ledger, b, id)) then multiset(b.itemIds)[id] else 0
  {
    OrderedReports(b.batchId, b.itemIds, Replayed(ledger, b, b.itemIds) + FreshOutcomes(ledger, b), id);
  }

  /** Whatever is asked for and however often, a commit reports a fresh item as APPLIED once per occurrence if its first
      fresh outcome says so, and never otherwise. */
  lemma ReportsPerOccurrence(ledger: Ledger, b: Batch, id: Text)
    requires MetaKey(b.batchId, id) !in ledger
    ensures AppliedReports(b.batchId, Commit(ledger, b).1, MetaKey(b.batchId, id))
         == if SaysApplied(Find(FreshOutcomes(ledger, b), id)) then multiset(b.itemIds)[id] else 0
  {
    ReportsOfAnswer(ledger, b, id);
    if id in b.itemIds {
      AnswerOf(ledger, b, id);
    }
  }

  /** So it does at most once exactly when the item is asked for at most once or its first fresh outcome is another. */
  lemma ReportedOnceExactly(ledger: Ledger, b: Batch, id: Text)
    requires MetaKey(b.batchId, id) !in ledger
    ensures AppliedReports(b.batchId, Commit(ledger, b).1, MetaKey(b.batchId, id)) <= 1
       <==> multiset(b.itemIds)[id] <= 1 || !SaysApplied(Find(FreshOutcomes(ledger, b), id))
  {
    ReportsPerOccurrence(ledger, b, id);
  }

  /** The caller is told the first fresh outcome and the ledger keeps the last: they agree exactly when these two do. */
  lemma ReportAgreesExactly(ledger: Ledger, b: Batch, id: Text)
    requires id in b.itemIds && MetaKey(b.batchId, id) !in ledger
    ensures var (after, key, told) := (Commit(ledger, b).0, MetaKey(b.batchId, id), Answer(ledger, b, id));
      var (first, last) := (Find(FreshOutcomes(ledger, b), id), FindLast(FreshOutcomes(ledger, b), id));
      && (told.Some? <==> key in after)
      && (told.Some? <==> first.Some?) && (told.Some? <==> last.Some?)
      && (told.Some? ==> (told.value.outcome == after[key].outcome <==> first.value.outcome == last.value.outcome))
  {
    AnswerOf(ledger, b, id);
    RecordLast(ledger, b, FreshOutcomes(ledger, b), id);
    FirstAndLast(FreshOutcomes(ledger, b), id);
  }

  lemma RecordedNotApplied(ledger: Ledger, b: Batch, id: Text)
    requires MetaKey(b.batchId, id) in ledger && id in b.itemIds
    ensures !SaysApplied(Answer(ledger, b, id))
  {
    AnswerOf(ledger, b, id);
  }

  lemma RecordedNotReported(ledger: Ledger, b: Batch, id: Text)
    requires MetaKey(b.batchId, id) in ledger
    ensures AppliedReports(b.batchId, Commit(ledger, b).1, MetaKey(b.batchId, id)) == 0
  {
    ReportsOfAnswer(ledger, b, id);
    if id in b.itemIds {
      RecordedNotApplied(ledger, b, id);
    }
  }

  lemma ReportedIsRecorded(ledger: Ledger, b: Batch, id: Text)
    requires AppliedReports(b.batchId, Commit(ledger, b).1, MetaKey(b.batchId, id)) > 0
    ensures MetaKey(b.batchId, id) !in ledger && MetaKey(b.batchId, id) in Commit(ledger, b).0
  {
    if MetaKey(b.batchId, id) in ledger {
      RecordedNotReported(ledger, b, id);
    } else {
      ReportsPerOccurrence(ledger, b, id);
      RecordLast(ledger, b, FreshOutcomes(ledger, b), id);
      FirstAndLast(FreshOutcomes(ledger, b), id);
    }
  }

  /** Every commit of the run reports the item of this key as APPLIED at most once. */
  ghost predicate OnceEachCommit(ledger: Ledger, batches: seq<Batch>, key: Text) {
    batches == [] ||
    (var before, last := batches[..|batches| - 1], batches[|batches| - 1];
     && OnceEachCommit(ledger, before, key)
     && AppliedReports(last.batchId, Commit(After(ledger, before), last).1, key) <= 1)
  }

  lemma ReportingCommit(ledger: Ledger, b: Batch, key: Text)
    ensures AppliedReports(b.batchId, Commit(ledger, b).1, key) > 0 ==> key !in ledger && key in Commit(ledger, b).0
    ensures key in ledger ==> key in Commit(ledger, b).0
  {
    if key in ledger {
      CommitKeeps(ledger, b, key);
    }
    if i :| 0 <= i < |b.itemIds| && MetaKey(b.batchId, b.itemIds[i]) == key {
      if AppliedReports(b.batchId, Commit(ledger, b).1, key) > 0 {
        ReportedIsRecorded(ledger, b, b.itemIds[i]);
      }
    } else {
      UnrequestedKept(ledger, b, key);
    }
  }

  /** Over any run at all, duplicates and simulated outcomes included, at most one commit reports an item as APPLIED; so
      the run does at most once exactly when every commit does. */
  lemma {:induction false} OnlyOneCommitReports(ledger: Ledger, batches: seq<Batch>, key: Text)
    ensures Reports(ledger, batches, key) > 0 ==> key !in ledger && key in After(ledger, batches)
    ensures key in ledger ==> key in After(ledger, batches)
    ensures Reports(ledger, batches, key) <= 1 <==> OnceEachCommit(ledger, batches, key)
  {
    if batches != [] {
      var before, last := batches[..|batches| - 1], batches[|batches| - 1];
      OnlyOneCommitReports(ledger, before, key);
      ReportingCommit(After(ledger, before), last, key);
    }
  }

  lemma {:induction false} GeneratedFrom(
      batchId: Text, ids: seq<Text>, id: Text, outcomes: seq<ItemResult>, from: nat, p: nat)
    requires from <= p < |ids| == |outcomes| && ids[p] == id && forall k :: from <= k < p ==> ids[k] != id
    requires forall k :: 0 <= k < |ids| ==> outcomes[k] == Generate(batchId, ids[k], k)
    ensures Find(outcomes[from..], id) == Some(Generate(batchId, id, p))
    decreases p - from
  {
    if from < p {
      var next := from + 1;
      GeneratedFrom(batchId, ids, id, outcomes, next, p);
      assert outcomes[from..][1..] == outcomes[next..];
    }
  }

  lemma {:induction false} GeneratedUpTo(batchId: Text, ids: seq<Text>, id: Text, outcomes: seq<ItemResult>, upTo: nat, q: nat)
    requires q < upTo <= |ids| == |outcomes| && ids[q] == id && forall k :: q < k < upTo ==> ids[k] != id
    requires forall k :: 0 <= k < |ids| ==> outcomes[k] == Generate(batchId, ids[k], k)
    ensures FindLast(outcomes[..upTo], id) == Some(Generate(batchId, id, q))
  {
    if q < upTo - 1 {
      var before := upTo - 1;
      GeneratedUpTo(batchId, ids, id, outcomes, before, q);
      assert outcomes[..upTo][..before] == outcomes[..before];
    }
  }

  /** The first and the last fresh outcome of the item are these. */
  ghost predicate EndsWith(ledger: Ledger, b: Batch, id: Text, first: ItemResult, last: ItemResult) {
    && id in b.itemIds && MetaKey(b.batchId, id) !in ledger
    && Find(FreshOutcomes(ledger, b), id) == Some(first) && FindLast(FreshOutcomes(ledger, b), id) == Some(last)
  }

  lemma ToldTheFirst(ledger: Ledger, b: Batch, id: Text, first: ItemResult, last: ItemResult)
    requires EndsWith(ledger, b, id, first, last)
    ensures AppliedReports(b.batchId, Commit(ledger, b).1, MetaKey(b.batchId, id))
         == if first.outcome.Applied? then multiset(b.itemIds)[id] else 0
  {
    ReportsPerOccurrence(ledger, b, id);
  }

  lemma KeptTheLast(ledger: Ledger, b: Batch, id: Text, first: ItemResult, last: ItemResult)
    requires EndsWith(ledger, b, id, first, last)
    ensures Answer(ledger, b, id) == Some(first) && MetaKey(b.batchId, id) in Commit(ledger, b).0
    ensures Commit(ledger, b).0[MetaKey(b.batchId, id)].outcome == last.outcome
  {
    AnswerOf(ledger, b, id);
    RecordLast(ledger, b, FreshOutcomes(ledger, b), id);
  }

  lemma GeneratedEnds(ledger: Ledger, b: Batch, id: Text, p: nat, q: nat)
    requires b.simulated == [] && StandsBetween(FreshIds(ledger, b.batchId, b.itemIds), id, p, q)
    ensures EndsWith(ledger, b, id, Generate(b.batchId, id, p), Generate(b.batchId, id, q))
  {
    var ids, outcomes := FreshIds(ledger, b.batchId, b.itemIds), FreshOutcomes(ledger, b);
    PlacedIsFresh(ledger, b, id, p, q);
    GeneratedFrom(b.batchId, ids, id, outcomes, 0, p);
    GeneratedUpTo(b.batchId, ids, id, outcomes, |ids|, q);
    assert outcomes[0..] == outcomes && outcomes[..|ids|] == outcomes;
  }

  /** The first place of the id is p and the last is q. */
  ghost predicate StandsBetween(ids: seq<Text>, id: Text, p: nat, q: nat) {
    p <= q < |ids| && ids[p] == ids[q] == id && forall k :: 0 <= k < p || q < k < |ids| ==> ids[k] != id
  }

  lemma FourApart(n: nat, p: nat, q: nat)
    requires p <= q
    ensures (n + p) % 4 == (n + q) % 4 <==> (q - p) % 4 == 0
  {
  }

  lemma PlaceDecides(batchId: Text, id: Text, p: nat, q: nat) returns (first: ItemResult, last: ItemResult)
    requires p <= q
    ensures first == Generate(batchId, id, p) && last == Generate(batchId, id, q)
    ensures first.outcome.Applied? <==> (|batchId| + |id| + p) % 4 == 0
    ensures first.outcome == last.outcome <==> (q - p) % 4 == 0
  {
    first, last := Generate(batchId, id, p), Generate(batchId, id, q);
    FourApart(|batchId| + |id|, p, q);
  }

  lemma PlacedIsFresh(ledger: Ledger, b: Batch, id: Text, p: nat, q: nat)
    requires StandsBetween(FreshIds(ledger, b.batchId, b.itemIds), id, p, q)
    ensures id in b.itemIds && MetaKey(b.batchId, id) !in ledger
  {
    FreshIdsFacts(ledger, b.batchId, b.itemIds);
    assert FreshIds(ledger, b.batchId, b.itemIds)[p] in FreshIds(ledger, b.batchId, b.itemIds);
  }

  lemma EndsByPlace(ledger: Ledger, b: Batch, id: Text, p: nat, q: nat) returns (first: ItemResult, last: ItemResult)
    requires b.simulated == [] && StandsBetween(FreshIds(ledger, b.batchId, b.itemIds), id, p, q)
    ensures EndsWith(ledger, b, id, first, last)
    ensures first.outcome.Applied? <==> (|b.batchId| + |id| + p) % 4 == 0
    ensures first.outcome == last.outcome <==> (q - p) % 4 == 0
  {
    first, last := PlaceDecides(b.batchId, id, p, q);
    GeneratedEnds(ledger, b, id, p, q);
  }

  /** With generated outcomes it depends on where the fresh id stands. All its occurrences are told APPLIED exactly when
      its first place makes the lengths a multiple of 4. */
  lemma DuplicateReportedTwice(ledger: Ledger, b: Batch, id: Text, p: nat, q: nat)
    requires b.simulated == [] && StandsBetween(FreshIds(ledger, b.batchId, b.itemIds), id, p, q)
    ensures AppliedReports(b.batchId, Commit(ledger, b).1, MetaKey(b.batchId, id))
         == if (|b.batchId| + |id| + p) % 4 == 0 then multiset(b.itemIds)[id] else 0
  {
    var first, last := EndsByPlace(ledger, b, id, p, q);
    ToldTheFirst(ledger, b, id, first, last);
  }

  /** And the ledger keeps the outcome the caller was told exactly when its first and its last place are a multiple of 4
      apart. */
  lemma DuplicateRecordedOtherwise(ledger: Ledger, b: Batch, id: Text, p: nat, q: nat)
    requires b.simulated == [] && StandsBetween(FreshIds(ledger, b.batchId, b.itemIds), id, p, q)
    ensures Answer(ledger, b, id).Some? && MetaKey(b.batchId, id) in Commit(ledger, b).0
    ensures Answer(ledger, b, id).value.outcome == Commit(ledger, b).0[MetaKey(b.batchId, id)].outcome
       <==> (q - p) % 4 == 0
  {
    var first, last := EndsByPlace(ledger, b, id, p, q);
    KeptTheLast(ledger, b, id, first, last);
  }

  // ---------------------------------------------------------------- the service

  datatype Summary = Summary(totalItems: nat, appliedCount: nat, acceptedCount: nat, failedCount: nat, skippedCount: nat)

  class AssistantStore {
    var batchItemsMeta: map<Text, Meta>
    var batchResults: map<Text, seq<ItemResult>>

    constructor ()
      ensures batchItemsMeta == map[] && batchResults == map[]
    {
      batchItemsMeta, batchResults := map[], map[];
    }

    method CommitPlanningBatch(b: Batch) returns (items: seq<ItemResult>, summary: Summary)
      modifies this
      ensures (batchItemsMeta, items) == Commit(old(batchItemsMeta), b)
      ensures batchResults == old(batchResults)[b.batchId := items]
      ensures summary.totalItems == |items| == summary.appliedCount + summary.acceptedCount + summary.failedCount + summary.skippedCount
      ensures summary.appliedCount == CountOutcome(items, Applied) && summary.acceptedCount == CountOutcome(items, Accepted)
      ensures summary.failedCount == CountOutcome(items, Failed) && summary.skippedCount == CountOutcome(items, Skipped)
    {
      var decided, unseen := Decide(b);
      var outcomes := if b.simulated != [] then Chosen(b.simulated, unseen) else Generated(b.batchId, unseen);
      RecordAll(b, outcomes);
      items := Arrange(b.itemIds, decided + outcomes);
      summary := Summarize(items);
      batchResults := batchResults[b.batchId := items];
    }

    method Decide(b: Batch) returns (decided: seq<ItemResult>, unseen: seq<Text>)
      ensures decided == Replayed(batchItemsMeta, b, b.itemIds) && unseen == FreshIds(batchItemsMeta, b.batchId, b.itemIds)
    {
      decided, unseen := [], [];
      var i := 0;
      while i < |b.itemIds|
        invariant i <= |b.itemIds|
        invariant decided == Replayed(batchItemsMeta, b, b.itemIds[..i])
        invariant unseen == FreshIds(batchItemsMeta, b.batchId, b.itemIds[..i])
      {
        var id := b.itemIds[i];
        assert b.itemIds[..i + 1][..i] == b.itemIds[..i];
        var key := MetaKey(b.batchId, id);
        if key in batchItemsMeta {
          decided := decided + [Replay(batchItemsMeta[key], id, KindFor(b.inputs, id), DigestFor(b.inputs, id))];
        } else {
          unseen := unseen + [id];
        }
        i := i + 1;
      }
      assert b.itemIds[..|b.itemIds|] == b.itemIds;
    }

    method RecordAll(b: Batch, outcomes: seq<ItemResult>)
      modifies this`batchItemsMeta
      ensures batchItemsMeta == Record(old(batchItemsMeta), b, outcomes)
    {
      var i := 0;
      while i < |outcomes|
        invariant i <= |outcomes| && batchItemsMeta == Record(old(batchItemsMeta), b, outcomes[..i])
      {
        assert outcomes[..i + 1][..i] == outcomes[..i];
        batchItemsMeta := batchItemsMeta[MetaKey(b.batchId, outcomes[i].itemId) := MetaOf(outcomes[i], b.inputs)];
        i := i + 1;
      }
      assert outcomes[..|outcomes|] == outcomes;
    }
  }

  method Arrange(ids: seq<Text>, all: seq<ItemResult>) returns (items: seq<ItemResult>)
    ensures items == Ordered(ids, all)
  {
    items := [];
    var i := 0;
    while i < |ids|
      invariant i <= |ids| && items == Ordered(ids[..i], all)
    {
      assert ids[..i + 1][..i] == ids[..i];
      var found := Find(all, ids[i]);
      if found.Some? {
        items := items + [found.value];
      }
      i := i + 1;
    }
    assert ids[..|ids|] == ids;
  }

  method Summarize(items: seq<ItemResult>) returns (s: Summary)
    ensures s.totalItems == |items| == s.appliedCount + s.acceptedCount + s.failedCount + s.skippedCount
    ensures s.appliedCount == CountOutcome(items, Applied) && s.acceptedCount == CountOutcome(items, Accepted)
    ensures s.failedCount == CountOutcome(items, Failed) && s.skippedCount == CountOutcome(items, Skipped)
  {
    CountsAddUp(items);
    s := Summary(|items|, CountOutcome(items, Applied), CountOutcome(items, Accepted), CountOutcome(items, Failed),
                 CountOutcome(items, Skipped));
  }
}
