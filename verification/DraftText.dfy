/** What a reader finds in the canonical text of a draft, property by property. */
module DraftText {
  import opened Ordering
  import opened CanonicalJson
  import opened JsonParser
  import opened DraftDigest

  /** The object has this property with this value, or does not have it. */
  predicate Reads(v: Value, key: string, found: Option<Value>) {
    v.Obj? && Lookup(v.members, Ascii(key)) == found
  }

  predicate ReadsText(v: Value, key: string, t: Text) {
    Reads(v, key, Some(Str(t)))
  }

  predicate ReadsOptional(v: Value, key: string, t: Option<Text>) {
    Reads(v, key, if t.Some? then Some(Str(t.value)) else None)
  }

  predicate ReadsCitizen(v: Value, d: Draft) {
    ReadsText(v, "number", d.citizenNumber) && ReadsText(v, "address", d.citizenAddress) && |v.members| == 2
  }

  predicate ReadsIntent(v: Value, d: Draft) {
    && ReadsText(v, "stage", d.stage) && ReadsText(v, "availability", d.availability)
    && ReadsOptional(v, "availableFromDate", d.availableFromDate)
    && |v.members| == if d.availableFromDate.Some? then 3 else 2
  }

  predicate ReadsEvidence(v: Value, e: Evidence) {
    ReadsText(v, "evidenceId", e.evidenceId) && ReadsText(v, "kind", e.kind) && |v.members| == 2
  }

  predicate ReadsAllEvidence(v: Value, evidence: seq<Evidence>) {
    v.Arr? && |v.items| == |evidence| && forall i :: 0 <= i < |evidence| ==> ReadsEvidence(v.items[i], evidence[i])
  }

  /** The eleven properties of a draft. */
  ghost predicate ReadsDraft(v: Value, d: Draft) {
    && ReadsText(v, "organizationId", d.organizationId) && ReadsText(v, "intakeRevisionId", d.intakeRevisionId)
    && ReadsText(v, "fullName", d.fullName) && ReadsText(v, "phone", d.phone)
    && ReadsOptional(v, "contactAddress", d.contactAddress) && ReadsOptional(v, "dob", d.dob)
    && ReadsOptional(v, "canonicalId", d.canonicalId)
    && Reads(v, "canonicalVersion", if d.canonicalVersion.Some? then Some(Num(d.canonicalVersion.value)) else None)
    && (exists citizen :: Reads(v, "citizenIdentity", Some(citizen)) && ReadsCitizen(citizen, d))
    && (exists intent :: Reads(v, "intent", Some(intent)) && ReadsIntent(intent, d))
    && (exists evidence :: Reads(v, "evidenceRefs", Some(evidence)) && ReadsAllEvidence(evidence, d.evidenceRefs))
    && |v.members| == 7 + (if d.contactAddress.Some? then 1 else 0) + (if d.dob.Some? then 1 else 0)
                        + (if d.canonicalId.Some? then 1 else 0) + (if d.canonicalVersion.Some? then 1 else 0)
  }

  // ---------------------------------------------------------------- looking up after sorting

  lemma NormalLookup(members: seq<Member>, key: Text)
    requires KeysDistinct(members)
    ensures var sorted := Normal(Obj(members)).members;
      && |sorted| == |members|
      && Lookup(sorted, key) == match Lookup(members, key) case None => None case Some(v) => Some(Normal(v))
  {
    var normal := NormalMembers(members);
    var sorted := Sort(normal, KeyLeq);
    SortPermutes(normal, KeyLeq);
    SameMembers(normal, sorted);
    NormalKeysDistinct(members);
    NoDuplicateKeys(normal, sorted);
    LookupFinds(members, key);
    LookupFinds(sorted, key);
    match Lookup(members, key) {
      case None => NoneSorted(members, normal, sorted, key);
      case Some(v) =>
        var i :| 0 <= i < |members| && members[i] == Member(key, v);
        assert normal[i] == Member(key, Normal(v)) && normal[i] in sorted;
        var j :| 0 <= j < |sorted| && sorted[j] == normal[i];
        LookupMember(sorted, j);
    }
  }

  lemma NoneSorted(members: seq<Member>, normal: seq<Member>, sorted: seq<Member>, key: Text)
    requires |normal| == |members| && forall i :: 0 <= i < |members| ==> normal[i].key == members[i].key != key
    requires forall m :: m in sorted ==> m in normal
    ensures Lookup(sorted, key) == None
  {
    forall i | 0 <= i < |sorted|
      ensures sorted[i].key != key
    {
      assert sorted[i] in normal;
    }
    LookupAbsent(sorted, key);
  }

  /** Rearranging keeps keys distinct. */
  lemma NoDuplicateKeys(a: seq<Member>, b: seq<Member>)
    requires KeysDistinct(a) && multiset(a) == multiset(b)
    ensures KeysDistinct(b)
  {
    var keyOf := (m: Member) => m.key;
    MapPermutes(keyOf, a, b);
    NoDuplicatesPermutes(Map(keyOf, a), Map(keyOf, b));
    forall i, j | 0 <= i < j < |b|
      ensures b[i].key != b[j].key
    {
      assert Map(keyOf, b)[i] != Map(keyOf, b)[j];
    }
  }

  lemma FieldRead(fields: seq<Field>, i: nat)
    requires FieldsDistinct(fields) && i < |fields|
    ensures var v := Normal(Obj(Present(fields)));
      v.Obj? && Lookup(v.members, fields[i].key)
                == match fields[i].value case None => None case Some(w) => Some(Normal(w))
  {
    PresentDistinct(fields);
    PresentLookup(fields, i);
    NormalLookup(Present(fields), fields[i].key);
  }

  function PresentCount(fields: seq<Field>): nat {
    if fields == [] then 0 else (if fields[0].value.Some? then 1 else 0) + PresentCount(fields[1..])
  }

  lemma {:induction false} PresentCounted(fields: seq<Field>)
    requires FieldsDistinct(fields)
    ensures |Present(fields)| == PresentCount(fields) == |Normal(Obj(Present(fields))).members|
  {
    PresentDistinct(fields);
    NormalLookup(Present(fields), []);
    if fields != [] {
      PresentCounted(fields[1..]);
    }
  }

  lemma {:induction false} AllPresent(fields: seq<Field>)
    requires forall i :: 0 <= i < |fields| ==> fields[i].value.Some?
    ensures PresentCount(fields) == |fields|
  {
    if fields != [] {
      AllPresent(fields[1..]);
    }
  }

  lemma {:induction false} CountConcat(a: seq<Field>, b: seq<Field>)
    ensures PresentCount(a + b) == PresentCount(a) + PresentCount(b)
  {
    if a == [] {
      assert a + b == b;
    } else {
      CountConcat(a[1..], b);
      assert (a + b)[1..] == a[1..] + b;
    }
  }

  lemma OneCounted(f: Field)
    ensures PresentCount([f]) == if f.value.Some? then 1 else 0
  {
    assert [f][1..] == [];
  }

  /** The last of the fields may be missing, the others are there. */
  lemma LastMayMiss(fields: seq<Field>, last: Field)
    requires forall i :: 0 <= i < |fields| ==> fields[i].value.Some?
    ensures PresentCount(fields + [last]) == |fields| + if last.value.Some? then 1 else 0
  {
    AllPresent(fields);
    OneCounted(last);
    CountConcat(fields, [last]);
  }

  lemma LastFour(fields: seq<Field>, a: Field, b: Field, c: Field, d: Field)
    requires forall i :: 0 <= i < |fields| ==> fields[i].value.Some?
    ensures PresentCount(fields + [a] + [b] + [c] + [d])
         == |fields| + (if a.value.Some? then 1 else 0) + (if b.value.Some? then 1 else 0)
            + (if c.value.Some? then 1 else 0) + (if d.value.Some? then 1 else 0)
  {
    LastMayMiss(fields, a);
    CountConcat(fields + [a], [b]);
    CountConcat(fields + [a] + [b], [c]);
    CountConcat(fields + [a] + [b] + [c], [d]);
    OneCounted(b);
    OneCounted(c);
    OneCounted(d);
  }

  // ---------------------------------------------------------------- the draft

  lemma CitizenReads(d: Draft)
    ensures ReadsCitizen(Normal(Obj(Present(CitizenFields(d)))), d)
  {
    SmallFieldsDistinct(d, Evidence([], []));
    FieldRead(CitizenFields(d), 0);
    FieldRead(CitizenFields(d), 1);
    PresentCounted(CitizenFields(d));
    AllPresent(CitizenFields(d));
  }

  lemma IntentReads(d: Draft)
    ensures ReadsIntent(Normal(Obj(Present(IntentFields(d)))), d)
  {
    SmallFieldsDistinct(d, Evidence([], []));
    FieldRead(IntentFields(d), 0);
    FieldRead(IntentFields(d), 1);
    FieldRead(IntentFields(d), 2);
    PresentCounted(IntentFields(d));
    assert IntentFields(d) == IntentFields(d)[..2] + [IntentFields(d)[2]];
    LastMayMiss(IntentFields(d)[..2], IntentFields(d)[2]);
  }

  lemma EvidenceReads(d: Draft)
    ensures ReadsAllEvidence(Normal(Arr(Map(EvidenceValue, d.evidenceRefs))), d.evidenceRefs)
  {
    var v := Normal(Arr(Map(EvidenceValue, d.evidenceRefs)));
    forall i | 0 <= i < |d.evidenceRefs|
      ensures ReadsEvidence(v.items[i], d.evidenceRefs[i])
    {
      var e := d.evidenceRefs[i];
      SmallFieldsDistinct(d, e);
      FieldRead(EvidenceFields(e), 0);
      FieldRead(EvidenceFields(e), 1);
      PresentCounted(EvidenceFields(e));
      AllPresent(EvidenceFields(e));
    }
  }

  lemma PlainReads(d: Draft)
    ensures var v := Normal(DraftValue(d));
      && ReadsText(v, "organizationId", d.organizationId) && ReadsText(v, "intakeRevisionId", d.intakeRevisionId)
      && ReadsText(v, "fullName", d.fullName) && ReadsText(v, "phone", d.phone)
  {
    DraftFieldsDistinct(d);
    FieldRead(DraftFields(d), 0);
    FieldRead(DraftFields(d), 1);
    FieldRead(DraftFields(d), 2);
    FieldRead(DraftFields(d), 3);
  }

  lemma OptionalReads(d: Draft)
    ensures var v := Normal(DraftValue(d));
      && ReadsOptional(v, "contactAddress", d.contactAddress) && ReadsOptional(v, "dob", d.dob)
      && ReadsOptional(v, "canonicalId", d.canonicalId)
      && Reads(v, "canonicalVersion", if d.canonicalVersion.Some? then Some(Num(d.canonicalVersion.value)) else None)
  {
    DraftFieldsDistinct(d);
    FieldRead(DraftFields(d), 7);
    FieldRead(DraftFields(d), 8);
    FieldRead(DraftFields(d), 9);
    FieldRead(DraftFields(d), 10);
  }

  lemma NestedReads(d: Draft)
    ensures var v := Normal(DraftValue(d));
      && Reads(v, "citizenIdentity", Some(Normal(Obj(Present(CitizenFields(d))))))
      && Reads(v, "intent", Some(Normal(Obj(Present(IntentFields(d))))))
      && Reads(v, "evidenceRefs", Some(Normal(Arr(Map(EvidenceValue, d.evidenceRefs)))))
  {
    DraftFieldsDistinct(d);
    FieldRead(DraftFields(d), 4);
    FieldRead(DraftFields(d), 5);
    FieldRead(DraftFields(d), 6);
  }

  lemma DraftCounted(d: Draft)
    ensures |Normal(DraftValue(d)).members|
         == 7 + (if d.contactAddress.Some? then 1 else 0) + (if d.dob.Some? then 1 else 0)
            + (if d.canonicalId.Some? then 1 else 0) + (if d.canonicalVersion.Some? then 1 else 0)
  {
    var fields := DraftFields(d);
    DraftFieldsDistinct(d);
    PresentCounted(fields);
    assert fields == fields[..7] + [fields[7]] + [fields[8]] + [fields[9]] + [fields[10]];
    LastFour(fields[..7], fields[7], fields[8], fields[9], fields[10]);
  }

  lemma NormalReads(d: Draft)
    ensures ReadsDraft(Normal(DraftValue(d)), d)
  {
    PlainReads(d);
    OptionalReads(d);
    NestedReads(d);
    CitizenReads(d);
    IntentReads(d);
    EvidenceReads(d);
    DraftCounted(d);
  }

  /** Whoever parses the text a confirmation is bound to finds each field of the draft under its own name, and nothing
      else. */
  lemma DraftReads(d: Draft, rest: Text)
    requires ValidDraft(d) && Delimited(rest)
    ensures Canonical(DraftValue(d)) == Some(Print(DraftValue(d)))
    ensures var parsed := ParseValue(Print(DraftValue(d)) + rest);
      parsed.Ok? && parsed.rest == rest && ReadsDraft(parsed.value, d)
  {
    DraftGood(d);
    RoundTrip(DraftValue(d), rest);
    NormalReads(d);
  }
}
