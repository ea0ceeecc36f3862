/** The canonical draft a staff confirmation is bound to: its text determines every bound field. */
module DraftDigest {
  import opened Ordering
  import opened CanonicalJson
  import opened JsonParser

  datatype Evidence = Evidence(evidenceId: Text, kind: Text)

  /** The input of buildCanonicalDraft, its evidence already arranged by evidenceId. */
  datatype Draft = Draft(
    organizationId: Text,
    intakeRevisionId: Text,
    fullName: Text,
    phone: Text,
    citizenNumber: Text,
    citizenAddress: Text,
    stage: Text,
    availability: Text,
    availableFromDate: Option<Text>,
    evidenceRefs: seq<Evidence>,
    contactAddress: Option<Text>,
    dob: Option<Text>,
    canonicalId: Option<Text>,
    canonicalVersion: Option<Text>)

  /** A version is a number: its numeral is what gets printed. */
  predicate ValidDraft(d: Draft) {
    d.canonicalVersion.Some? ==> Numeral(d.canonicalVersion.value)
  }

  // --------------------------------------------------- objects with optional fields

  datatype Field = Field(key: Text, value: Option<Value>)

  ghost predicate FieldsDistinct(fields: seq<Field>) {
    forall i, j :: 0 <= i < j < |fields| ==> fields[i].key != fields[j].key
  }

  function Present(fields: seq<Field>): seq<Member> {
    if fields == [] then []
    else (if fields[0].value.Some? then [Member(fields[0].key, fields[0].value.value)] else []) + Present(fields[1..])
  }

  function Lookup(members: seq<Member>, key: Text): Option<Value> {
    if members == [] then None
    else if members[0].key == key then Some(members[0].value)
    else Lookup(members[1..], key)
  }

  lemma {:induction false} PresentOrigin(fields: seq<Field>, m: Member)
    requires m in Present(fields)
    ensures exists i :: 0 <= i < |fields| && fields[i] == Field(m.key, Some(m.value))
  {
    if fields[0] != Field(m.key, Some(m.value)) {
      PresentOrigin(fields[1..], m);
      var i :| 0 <= i < |fields[1..]| && fields[1..][i] == Field(m.key, Some(m.value));
      assert fields[i + 1] == fields[1..][i];
    }
  }

  lemma {:induction false} PresentDistinct(fields: seq<Field>)
    requires FieldsDistinct(fields)
    ensures KeysDistinct(Present(fields))
  {
    if fields != [] {
      PresentDistinct(fields[1..]);
      var rest := Present(fields[1..]);
      forall j | 0 <= j < |rest|
        ensures rest[j].key != fields[0].key
      {
        PresentOrigin(fields[1..], rest[j]);
        var i :| 0 <= i < |fields[1..]| && fields[1..][i] == Field(rest[j].key, Some(rest[j].value));
        assert fields[i + 1] == fields[1..][i];
      }
    }
  }

  lemma {:induction false} LookupAbsent(members: seq<Member>, key: Text)
    requires forall i :: 0 <= i < |members| ==> members[i].key != key
    ensures Lookup(members, key) == None
  {
    if members != [] {
      LookupAbsent(members[1..], key);
    }
  }

  lemma {:induction false} LookupMember(members: seq<Member>, i: nat)
    requires KeysDistinct(members) && i < |members|
    ensures Lookup(members, members[i].key) == Some(members[i].value)
  {
    if i > 0 {
      assert members[0].key != members[i].key;
      LookupMember(members[1..], i - 1);
    }
  }

  lemma {:induction false} LookupFinds(members: seq<Member>, key: Text)
    ensures match Lookup(members, key)
      case None => forall i :: 0 <= i < |members| ==> members[i].key != key
      case Some(v) => exists i :: 0 <= i < |members| && members[i] == Member(key, v)
  {
    if members != [] && members[0].key != key {
      LookupFinds(members[1..], key);
      match Lookup(members[1..], key) {
        case None =>
          assert forall i :: 0 < i < |members| ==> members[i] == members[1..][i - 1];
        case Some(v) =>
          var i :| 0 <= i < |members[1..]| && members[1..][i] == Member(key, v);
          assert members[i + 1] == members[1..][i];
      }
    }
  }

  lemma {:induction false} PresentLookup(fields: seq<Field>, i: nat)
    requires FieldsDistinct(fields) && i < |fields|
    ensures Lookup(Present(fields), fields[i].key) == fields[i].value
  {
    if i > 0 {
      PresentLookup(fields[1..], i - 1);
      assert fields[0].key != fields[i].key;
      assert fields[1..][i - 1] == fields[i];
      if fields[0].value.Some? {
        assert Present(fields)[1..] == Present(fields[1..]);
      } else {
        assert Present(fields) == Present(fields[1..]);
      }
    } else if fields[0].value.None? {
      assert Present(fields) == Present(fields[1..]);
      forall j | 0 <= j < |Present(fields)|
        ensures Present(fields)[j].key != fields[0].key
      {
        PresentOrigin(fields[1..], Present(fields)[j]);
        var k :| 0 <= k < |fields[1..]| && fields[1..][k] == Field(Present(fields)[j].key, Some(Present(fields)[j].value));
        assert fields[k + 1] == fields[1..][k];
      }
      LookupAbsent(Present(fields), fields[0].key);
    }
  }

  lemma EquivalentLookup(a: seq<Member>, b: seq<Member>, key: Text)
    requires KeysDistinct(a) && KeysDistinct(b) && Equivalent(Obj(a), Obj(b)) && Lookup(a, key).Some?
    ensures Lookup(b, key).Some? && Equivalent(Lookup(a, key).value, Lookup(b, key).value)
  {
    LookupFinds(a, key);
    var i :| 0 <= i < |a| && a[i] == Member(key, Lookup(a, key).value);
    var whole := Obj(a);
    assert Matched(whole.members[i], b);
    var j :| 0 <= j < |b| && a[i].key == b[j].key && Equivalent(a[i].value, b[j].value);
    LookupMember(b, j);
  }

  /** Field by field, equal texts mean equal fields. */
  ghost predicate SameField(a: Option<Value>, b: Option<Value>) {
    a.Some? == b.Some? && (a.Some? ==> Equivalent(a.value, b.value))
  }

  lemma FieldsAgree(a: seq<Field>, b: seq<Field>, i: nat)
    requires |a| == |b| && FieldsDistinct(a) && FieldsDistinct(b) && i < |a| && a[i].key == b[i].key
    requires Equivalent(Obj(Present(a)), Obj(Present(b))) && Equivalent(Obj(Present(b)), Obj(Present(a)))
    ensures SameField(a[i].value, b[i].value)
  {
    PresentDistinct(a);
    PresentDistinct(b);
    PresentLookup(a, i);
    PresentLookup(b, i);
    if a[i].value.Some? {
      EquivalentLookup(Present(a), Present(b), a[i].key);
    }
    if b[i].value.Some? {
      EquivalentLookup(Present(b), Present(a), a[i].key);
    }
  }

  // ---------------------------------------------------------------- the draft

  function OptStr(t: Option<Text>): Option<Value> {
    match t
    case None => None
    case Some(s) => Some(Str(s))
  }

  function OptNum(t: Option<Text>): Option<Value> {
    match t
    case None => None
    case Some(n) => Some(Num(n))
  }

  function CitizenFields(d: Draft): seq<Field> {
    [Field(Ascii("number"), Some(Str(d.citizenNumber))), Field(Ascii("address"), Some(Str(d.citizenAddress)))]
  }

  function IntentFields(d: Draft): seq<Field> {
    [Field(Ascii("stage"), Some(Str(d.stage))),
     Field(Ascii("availability"), Some(Str(d.availability))),
     Field(Ascii("availableFromDate"), OptStr(d.availableFromDate))]
  }

  function EvidenceFields(e: Evidence): seq<Field> {
    [Field(Ascii("evidenceId"), Some(Str(e.evidenceId))), Field(Ascii("kind"), Some(Str(e.kind)))]
  }

  function EvidenceValue(e: Evidence): Value {
    Obj(Present(EvidenceFields(e)))
  }

  function DraftFields(d: Draft): seq<Field> {
    [Field(Ascii("organizationId"), Some(Str(d.organizationId))),
     Field(Ascii("intakeRevisionId"), Some(Str(d.intakeRevisionId))),
     Field(Ascii("fullName"), Some(Str(d.fullName))),
     Field(Ascii("phone"), Some(Str(d.phone))),
     Field(Ascii("citizenIdentity"), Some(Obj(Present(CitizenFields(d))))),
     Field(Ascii("intent"), Some(Obj(Present(IntentFields(d))))),
     Field(Ascii("evidenceRefs"), Some(Arr(Map(EvidenceValue, d.evidenceRefs)))),
     Field(Ascii("contactAddress"), OptStr(d.contactAddress)),
     Field(Ascii("dob"), OptStr(d.dob)),
     Field(Ascii("canonicalId"), OptStr(d.canonicalId)),
     Field(Ascii("canonicalVersion"), OptNum(d.canonicalVersion))]
  }

  function DraftValue(d: Draft): Value {
    Obj(Present(DraftFields(d)))
  }

  /** Every key has its own length, except two pairs that start differently. */
  lemma DraftKeys(d: Draft)
    ensures |DraftFields(d)| == 11
    ensures |DraftFields(d)[0].key| == |DraftFields(d)[7].key| == 14 && DraftFields(d)[0].key[0] == 'o' as int
    ensures |DraftFields(d)[1].key| == |DraftFields(d)[10].key| == 16 && DraftFields(d)[1].key[0] == 'i' as int
    ensures DraftFields(d)[7].key[0] == DraftFields(d)[10].key[0] == 'c' as int
    ensures |DraftFields(d)[2].key| == 8 && |DraftFields(d)[3].key| == 5 && |DraftFields(d)[4].key| == 15
    ensures |DraftFields(d)[5].key| == 6 && |DraftFields(d)[6].key| == 12
    ensures |DraftFields(d)[8].key| == 3 && |DraftFields(d)[9].key| == 11
  {
    assert |"intakeRevisionId"| == |"canonicalVersion"| == 16 && |"citizenIdentity"| == 15;
    assert |"organizationId"| == |"contactAddress"| == 14 && |"canonicalId"| == 11;
  }

  lemma KeysApart(fields: seq<Field>)
    requires |fields| == 11
    requires |fields[0].key| == |fields[7].key| == 14 && fields[0].key[0] != fields[7].key[0]
    requires |fields[1].key| == |fields[10].key| == 16 && fields[1].key[0] != fields[10].key[0]
    requires |fields[2].key| == 8 && |fields[3].key| == 5 && |fields[4].key| == 15
    requires |fields[5].key| == 6 && |fields[6].key| == 12 && |fields[8].key| == 3 && |fields[9].key| == 11
    ensures FieldsDistinct(fields)
  {
    forall i, j | 0 <= i < j < |fields|
      ensures fields[i].key != fields[j].key
    {
      assert |fields[i].key| != |fields[j].key| || (i == 0 && j == 7) || (i == 1 && j == 10);
    }
  }

  lemma DraftFieldsDistinct(d: Draft)
    ensures FieldsDistinct(DraftFields(d))
  {
    DraftKeys(d);
    KeysApart(DraftFields(d));
  }

  lemma SmallFieldsDistinct(d: Draft, e: Evidence)
    ensures FieldsDistinct(CitizenFields(d)) && FieldsDistinct(IntentFields(d)) && FieldsDistinct(EvidenceFields(e))
  {
    assert |Ascii("number")| == 6 && |Ascii("address")| == 7;
    assert |Ascii("stage")| == 5 && |Ascii("availability")| == 12 && |Ascii("availableFromDate")| == 17;
    assert |Ascii("evidenceId")| == 10 && |Ascii("kind")| == 4;
  }

  /** A field is fit to print. */
  ghost predicate GoodField(f: Field) {
    f.value.Some? ==> Representable(f.value.value) && DistinctKeys(f.value.value)
  }

  lemma {:induction false} PresentGood(fields: seq<Field>)
    requires FieldsDistinct(fields) && forall i :: 0 <= i < |fields| ==> GoodField(fields[i])
    ensures Representable(Obj(Present(fields))) && DistinctKeys(Obj(Present(fields)))
  {
    PresentDistinct(fields);
    forall m | m in Present(fields)
      ensures Representable(m.value) && DistinctKeys(m.value)
    {
      PresentOrigin(fields, m);
    }
    MembersRepresentable(Present(fields));
  }

  lemma EvidenceGood(d: Draft, evidence: seq<Evidence>)
    ensures Representable(Arr(Map(EvidenceValue, evidence))) && DistinctKeys(Arr(Map(EvidenceValue, evidence)))
  {
    forall i | 0 <= i < |evidence|
      ensures Representable(EvidenceValue(evidence[i])) && DistinctKeys(EvidenceValue(evidence[i]))
    {
      SmallFieldsDistinct(d, evidence[i]);
      PresentGood(EvidenceFields(evidence[i]));
    }
    ItemsRepresentable(Map(EvidenceValue, evidence));
  }

  lemma NestedGood(d: Draft)
    ensures GoodField(DraftFields(d)[4]) && GoodField(DraftFields(d)[5]) && GoodField(DraftFields(d)[6])
  {
    SmallFieldsDistinct(d, Evidence([], []));
    PresentGood(CitizenFields(d));
    PresentGood(IntentFields(d));
    EvidenceGood(d, d.evidenceRefs);
  }

  lemma DraftGood(d: Draft)
    requires ValidDraft(d)
    ensures Representable(DraftValue(d)) && DistinctKeys(DraftValue(d))
  {
    DraftFieldsDistinct(d);
    NestedGood(d);
    PresentGood(DraftFields(d));
  }

  ghost predicate Interchangeable(a: seq<Field>, b: seq<Field>) {
    Equivalent(Obj(Present(a)), Obj(Present(b))) && Equivalent(Obj(Present(b)), Obj(Present(a)))
  }

  lemma CitizenBound(a: Draft, b: Draft)
    requires Interchangeable(CitizenFields(a), CitizenFields(b))
    ensures a.citizenNumber == b.citizenNumber && a.citizenAddress == b.citizenAddress
  {
    SmallFieldsDistinct(a, Evidence([], []));
    SmallFieldsDistinct(b, Evidence([], []));
    FieldsAgree(CitizenFields(a), CitizenFields(b), 0);
    FieldsAgree(CitizenFields(a), CitizenFields(b), 1);
  }

  lemma IntentBound(a: Draft, b: Draft)
    requires Interchangeable(IntentFields(a), IntentFields(b))
    ensures a.stage == b.stage && a.availability == b.availability && a.availableFromDate == b.availableFromDate
  {
    SmallFieldsDistinct(a, Evidence([], []));
    SmallFieldsDistinct(b, Evidence([], []));
    FieldsAgree(IntentFields(a), IntentFields(b), 0);
    FieldsAgree(IntentFields(a), IntentFields(b), 1);
    FieldsAgree(IntentFields(a), IntentFields(b), 2);
  }

  lemma EvidenceItemBound(d: Draft, a: Evidence, b: Evidence)
    requires Interchangeable(EvidenceFields(a), EvidenceFields(b))
    ensures a == b
  {
    SmallFieldsDistinct(d, a);
    SmallFieldsDistinct(d, b);
    FieldsAgree(EvidenceFields(a), EvidenceFields(b), 0);
    FieldsAgree(EvidenceFields(a), EvidenceFields(b), 1);
  }

  lemma EvidenceBound(d: Draft, a: seq<Evidence>, b: seq<Evidence>)
    requires Equivalent(Arr(Map(EvidenceValue, a)), Arr(Map(EvidenceValue, b)))
    requires Equivalent(Arr(Map(EvidenceValue, b)), Arr(Map(EvidenceValue, a)))
    ensures a == b
  {
    var x, y := Arr(Map(EvidenceValue, a)), Arr(Map(EvidenceValue, b));
    assert |a| == |b|;
    forall i | 0 <= i < |a|
      ensures a[i] == b[i]
    {
      assert Equivalent(x.items[i], y.items[i]) && Equivalent(y.items[i], x.items[i]);
      EvidenceItemBound(d, a[i], b[i]);
    }
  }

  lemma DraftFieldAgree(a: Draft, b: Draft, i: nat)
    requires Interchangeable(DraftFields(a), DraftFields(b)) && i < 11
    ensures SameField(DraftFields(a)[i].value, DraftFields(b)[i].value)
    ensures SameField(DraftFields(b)[i].value, DraftFields(a)[i].value)
  {
    DraftFieldsDistinct(a);
    DraftFieldsDistinct(b);
    FieldsAgree(DraftFields(a), DraftFields(b), i);
    FieldsAgree(DraftFields(b), DraftFields(a), i);
  }

  lemma IdsBound(a: Draft, b: Draft)
    requires Interchangeable(DraftFields(a), DraftFields(b))
    ensures a.organizationId == b.organizationId && a.intakeRevisionId == b.intakeRevisionId
  {
    DraftFieldAgree(a, b, 0);
    DraftFieldAgree(a, b, 1);
  }

  lemma RequiredBound(a: Draft, b: Draft)
    requires Interchangeable(DraftFields(a), DraftFields(b))
    ensures a.fullName == b.fullName && a.phone == b.phone
  {
    DraftFieldAgree(a, b, 2);
    DraftFieldAgree(a, b, 3);
  }

  lemma OptionalBound(a: Draft, b: Draft)
    requires Interchangeable(DraftFields(a), DraftFields(b))
    ensures a.contactAddress == b.contactAddress && a.dob == b.dob
    ensures a.canonicalId == b.canonicalId && a.canonicalVersion == b.canonicalVersion
  {
    DraftFieldAgree(a, b, 7);
    DraftFieldAgree(a, b, 8);
    DraftFieldAgree(a, b, 9);
    DraftFieldAgree(a, b, 10);
  }

  lemma NestedBound(a: Draft, b: Draft)
    requires Interchangeable(DraftFields(a), DraftFields(b))
    ensures a.citizenNumber == b.citizenNumber && a.citizenAddress == b.citizenAddress
    ensures a.stage == b.stage && a.availability == b.availability && a.availableFromDate == b.availableFromDate
    ensures a.evidenceRefs == b.evidenceRefs
  {
    DraftFieldAgree(a, b, 4);
    DraftFieldAgree(a, b, 5);
    DraftFieldAgree(a, b, 6);
    CitizenBound(a, b);
    IntentBound(a, b);
    EvidenceBound(a, a.evidenceRefs, b.evidenceRefs);
  }

  /** The canonical text of a draft determines every field bound by the confirmation, and nothing else does:
      changing any of them changes the text, hence the digest. */
  lemma DraftBinding(a: Draft, b: Draft)
    requires ValidDraft(a) && ValidDraft(b)
    ensures Canonical(DraftValue(a)) == Canonical(DraftValue(b)) <==> a == b
  {
    DraftGood(a);
    DraftGood(b);
    CanonicalInjective(DraftValue(a), DraftValue(b));
    CanonicalInjective(DraftValue(b), DraftValue(a));
    if Canonical(DraftValue(a)) == Canonical(DraftValue(b)) {
      IdsBound(a, b);
      RequiredBound(a, b);
      OptionalBound(a, b);
      NestedBound(a, b);
    }
  }

  // ---------------------------------------------------------------- evidence in any order

  /** How evidence is compared: by its id, under any comparison of ids. */
  function ById(idLeq: (Text, Text) -> bool): (Evidence, Evidence) -> bool {
    (x: Evidence, y: Evidence) => idLeq(x.evidenceId, y.evidenceId)
  }

  /** The draft that is printed: the evidence sorted by id, ties in the caller's order. */
  function Arranged(d: Draft, idLeq: (Text, Text) -> bool): Draft {
    d.(evidenceRefs := Sort(d.evidenceRefs, ById(idLeq)))
  }

  lemma ByIdPreorder(idLeq: (Text, Text) -> bool)
    requires TotalPreorder(idLeq)
    ensures TotalPreorder(ById(idLeq))
  {
    forall a: Evidence, b: Evidence
      ensures ById(idLeq)(a, b) || ById(idLeq)(b, a)
    {
      assert idLeq(a.evidenceId, b.evidenceId) || idLeq(b.evidenceId, a.evidenceId);
    }
    forall a: Evidence, b: Evidence, c: Evidence | ById(idLeq)(a, b) && ById(idLeq)(b, c)
      ensures ById(idLeq)(a, c)
    {
      assert idLeq(a.evidenceId, b.evidenceId) && idLeq(b.evidenceId, c.evidenceId);
    }
  }

  /** No two different pieces of evidence tie. */
  ghost predicate NoTies(evidence: seq<Evidence>, leq: (Evidence, Evidence) -> bool) {
    forall x, y :: x in evidence && y in evidence && leq(x, y) && leq(y, x) ==> x == y
  }

  lemma SameArrangement(a: seq<Evidence>, b: seq<Evidence>, idLeq: (Text, Text) -> bool)
    requires TotalPreorder(idLeq) && NoTies(a, ById(idLeq))
    ensures Sort(a, ById(idLeq)) == Sort(b, ById(idLeq)) <==> multiset(a) == multiset(b)
  {
    ByIdPreorder(idLeq);
    SortPermutes(a, ById(idLeq));
    SortPermutes(b, ById(idLeq));
    if multiset(a) == multiset(b) {
      SortCanonical(a, b, ById(idLeq));
    }
  }

  /** The order of the evidence does not matter, and everything else does: two drafts have the same canonical text, hence
      the same digest, exactly when they hold the same evidence, each piece as often, and agree in every other field. */
  lemma EvidenceOrderFree(a: Draft, b: Draft, idLeq: (Text, Text) -> bool)
    requires ValidDraft(a) && ValidDraft(b) && TotalPreorder(idLeq) && NoTies(a.evidenceRefs, ById(idLeq))
    ensures Canonical(DraftValue(Arranged(a, idLeq))) == Canonical(DraftValue(Arranged(b, idLeq)))
       <==> multiset(a.evidenceRefs) == multiset(b.evidenceRefs) && b == a.(evidenceRefs := b.evidenceRefs)
  {
    DraftBinding(Arranged(a, idLeq), Arranged(b, idLeq));
    SameArrangement(a.evidenceRefs, b.evidenceRefs, idLeq);
    SameOtherwise(a, b, Arranged(a, idLeq), Arranged(b, idLeq));
  }

  lemma SameOtherwise(a: Draft, b: Draft, x: Draft, y: Draft)
    requires x == a.(evidenceRefs := x.evidenceRefs) && y == b.(evidenceRefs := y.evidenceRefs)
    ensures x == y <==> x.evidenceRefs == y.evidenceRefs && b == a.(evidenceRefs := b.evidenceRefs)
  {
  }
}
