/** Packages, and what a Bitcoin commitment determines (hap/packages.py, hap/batches.py). */
module Packages {
  import opened Bytes
  import opened Order
  import opened Hex
  import opened Json
  import opened JsonLaws
  import opened Bitcoin
  import opened Batches

  datatype Package = Package(batch: Batch, records: seq<Record>, packageId: string)

  function Ids(records: seq<Record>): (r: seq<string>)
    ensures |r| == |records| && forall i :: 0 <= i < |records| ==> r[i] == records[i].id
  {
    seq(|records|, i requires 0 <= i < |records| => records[i].id)
  }

  function RecordJsons(records: seq<Record>): (r: seq<Json>)
    ensures |r| == |records| && forall i :: 0 <= i < |records| ==> r[i] == RecordJson(records[i])
  {
    seq(|records|, i requires 0 <= i < |records| => RecordJson(records[i]))
  }

  function PackageHead(): seq<Field> {
    [Field("schema", Str("hap.package")), Field("version", Int(1))]
  }

  function BatchField(batch: Batch): Field {
    Field("batch", BatchJson(batch))
  }

  function RecordsField(records: seq<Record>): Field {
    Field("records", Arr(RecordJsons(records)))
  }

  function PackageTail(id: string): seq<Field> {
    [Field("package_id", Str(id))]
  }

  /** The body of a package, which its identifier is computed from. */
  function PackageFields(batch: Batch, records: seq<Record>): seq<Field> {
    PackageHead() + [BatchField(batch)] + [RecordsField(records)]
  }

  function PackageJson(p: Package): Json {
    Obj(PackageFields(p.batch, p.records) + PackageTail(p.packageId))
  }

  /** `validate_package`, check by check. */
  predicate ValidPackage(rules: Rules, p: Package) {
    && ValidBatch(rules.sha, p.batch)
    && p.records != []
    && |p.records| == p.batch.recordCount
    && (forall i :: 0 <= i < |p.records| ==> ValidRecord(rules, p.records[i]))
    && !HasDuplicate(Ids(p.records))
    && Ids(p.records) == p.batch.recordIds
    && HashText(rules.sha, Obj(PackageFields(p.batch, p.records))) == Some(p.packageId)
  }

  ghost function RecordInput(r: Record): seq<Byte> {
    CanonicalBytes(Obj(r.envelope)).GetOr([])
  }

  ghost function BatchInput(b: Batch): seq<Byte> {
    CanonicalBytes(ManifestJson(b)).GetOr([])
  }

  // ---- what an identifier determines ----------------------------------------------

  /** Two hashed values with one identifier are the same value, or their bytes collide. */
  lemma HashTextDetermines(sha: HashFunction, v: Json, w: Json)
    requires IsDict(v) && IsDict(w)
    requires HashText(sha, v).Some? && HashText(sha, v) == HashText(sha, w)
    requires Separates(sha, CanonicalBytes(v).value, CanonicalBytes(w).value)
    ensures Denote(v) == Denote(w)
  {
    ToHexInjective(sha(CanonicalBytes(v).value), sha(CanonicalBytes(w).value));
    CanonicalIdentifies(v, w);
  }

  lemma SameMeaningPointwise(a: seq<Field>, b: seq<Field>, i: nat)
    requires DistinctKeys(KeyOf, a) && DistinctKeys(KeyOf, b)
    requires DenoteFields(a) == DenoteFields(b)
    requires i < |a| == |b| && a[i].key == b[i].key
    ensures Denote(a[i].value) == Denote(b[i].value)
  {
    EntryAt(a, i);
    EntryAt(b, i);
  }

  lemma {:induction false} TextsMeaning(a: seq<string>, b: seq<string>)
    requires Denote(Arr(Texts(a))) == Denote(Arr(Texts(b)))
    ensures a == b
  {
    var da, db := Denote(Arr(Texts(a))).items, Denote(Arr(Texts(b))).items;
    assert |da| == |a| && |db| == |b|;
    forall i | 0 <= i < |a|
      ensures a[i] == b[i]
    {
      assert da[i] == MStr(a[i]) && db[i] == MStr(b[i]);
    }
  }

  lemma ManifestLayout(b: Batch)
    ensures var fields := ManifestJson(b).fields;
            && |fields| == 9
            && fields[2] == Field("created_at", Int(b.createdAt))
            && fields[3] == Field("network", Str(b.network))
            && fields[4] == Field("record_count", Int(b.recordCount))
            && fields[5] == Field("merkle_root", Str(b.merkleRoot))
            && fields[7] == Field("record_ids", Arr(Texts(b.recordIds)))
  {
  }

  lemma ManifestKeys(b: Batch)
    ensures DistinctKeys(KeyOf, ManifestJson(b).fields)
  {
  }

  lemma TextsAreDicts(ids: seq<string>)
    ensures IsDict(Arr(Texts(ids)))
  {
    assert forall i :: 0 <= i < |ids| ==> IsDict(Texts(ids)[i]);
  }

  lemma ManifestIsDict(b: Batch)
    ensures IsDict(ManifestJson(b)) && DistinctKeys(KeyOf, ManifestJson(b).fields)
  {
    var fields := ManifestJson(b).fields;
    ManifestKeys(b);
    TextsAreDicts(b.recordIds);
    assert fields[7].value == Arr(Texts(b.recordIds)) && fields[8].value == Algorithms();
    assert IsDict(Algorithms());
  }

  lemma ManifestMeaning(a: Batch, b: Batch)
    requires DenoteFields(ManifestJson(a).fields) == DenoteFields(ManifestJson(b).fields)
    ensures b == a.(batchId := b.batchId, payloadHex := b.payloadHex)
  {
    var fa, fb := ManifestJson(a).fields, ManifestJson(b).fields;
    ManifestIsDict(a);
    ManifestIsDict(b);
    ManifestLayout(a);
    ManifestLayout(b);
    SameMeaningPointwise(fa, fb, 2);
    SameMeaningPointwise(fa, fb, 3);
    SameMeaningPointwise(fa, fb, 4);
    SameMeaningPointwise(fa, fb, 5);
    SameMeaningPointwise(fa, fb, 7);
    TextsMeaning(a.recordIds, b.recordIds);
  }

  /** The identifier of a batch determines everything in it but the spelling of its payload. */
  lemma BatchIdDetermines(sha: HashFunction, a: Batch, b: Batch)
    requires ValidBatch(sha, a) && ValidBatch(sha, b) && a.batchId == b.batchId
    requires Separates(sha, BatchInput(a), BatchInput(b))
    ensures b == a.(payloadHex := b.payloadHex)
  {
    ManifestIsDict(a);
    ManifestIsDict(b);
    HashTextDetermines(sha, ManifestJson(a), ManifestJson(b));
    assert Denote(ManifestJson(a)).entries == DenoteFields(ManifestJson(a).fields);
    assert Denote(ManifestJson(b)).entries == DenoteFields(ManifestJson(b).fields);
    ManifestMeaning(a, b);
  }

  lemma RecordIdDetermines(rules: Rules, r: Record, s: Record)
    requires ValidRecord(rules, r) && ValidRecord(rules, s) && r.id == s.id
    requires Separates(rules.sha, RecordInput(r), RecordInput(s))
    ensures Denote(Obj(r.envelope)) == Denote(Obj(s.envelope))
  {
    HashTextDetermines(rules.sha, Obj(r.envelope), Obj(s.envelope));
  }

  /** The strings hashed into the identifiers of a package's batch and records. */
  ghost function PackageInputs(p: Package): set<seq<Byte>> {
    {BatchInput(p.batch)} + set i | 0 <= i < |p.records| :: RecordInput(p.records[i])
  }

  lemma CommittedBatchId(sha: HashFunction, b: Batch, payload: AnchorPayload)
    requires ValidBatch(sha, b) && DecodeAnchorPayload(b.payloadHex) == Some(payload)
    ensures b.batchId == payload.manifestHash
  {
  }

  lemma SameRecordIds(rules: Rules, p: Package, q: Package, i: nat)
    requires ValidPackage(rules, p) && ValidPackage(rules, q) && p.batch.recordIds == q.batch.recordIds
    ensures |p.records| == |q.records|
    ensures i < |p.records| ==>
              p.records[i].id == q.records[i].id
              && ValidRecord(rules, p.records[i]) && ValidRecord(rules, q.records[i])
  {
    assert Ids(p.records) == Ids(q.records);
    if i < |p.records| {
      assert Ids(p.records)[i] == p.records[i].id && Ids(q.records)[i] == q.records[i].id;
    }
  }

  lemma RecordDetermined(rules: Rules, p: Package, q: Package, i: nat)
    requires ValidPackage(rules, p) && ValidPackage(rules, q) && p.batch.recordIds == q.batch.recordIds
    requires InjectiveOn(rules.sha, PackageInputs(p) + PackageInputs(q))
    ensures |p.records| == |q.records|
    ensures i < |p.records| ==>
              q.records[i].id == p.records[i].id
              && Denote(Obj(q.records[i].envelope)) == Denote(Obj(p.records[i].envelope))
  {
    SameRecordIds(rules, p, q, i);
    if i < |p.records| {
      var r, s := p.records[i], q.records[i];
      MembersSeparate(rules.sha, PackageInputs(p) + PackageInputs(q), RecordInput(r), RecordInput(s));
      RecordIdDetermines(rules, r, s);
    }
  }

  lemma BatchDetermined(rules: Rules, p: Package, q: Package, payload: AnchorPayload)
    requires ValidPackage(rules, p) && ValidPackage(rules, q)
    requires DecodeAnchorPayload(p.batch.payloadHex) == Some(payload)
    requires DecodeAnchorPayload(q.batch.payloadHex) == Some(payload)
    requires InjectiveOn(rules.sha, PackageInputs(p) + PackageInputs(q))
    ensures q.batch == p.batch.(payloadHex := q.batch.payloadHex)
  {
    CommittedBatchId(rules.sha, p.batch, payload);
    CommittedBatchId(rules.sha, q.batch, payload);
    MembersSeparate(rules.sha, PackageInputs(p) + PackageInputs(q), BatchInput(p.batch), BatchInput(q.batch));
    BatchIdDetermines(rules.sha, p.batch, q.batch);
  }

  /** One Bitcoin payload, one package: two valid packages for the same committed digest
      hold the same records in the same order, unless two hashed strings collide. */
  lemma CommitmentDeterminesPackage(rules: Rules, p: Package, q: Package, payload: AnchorPayload)
    requires ValidPackage(rules, p) && ValidPackage(rules, q)
    requires DecodeAnchorPayload(p.batch.payloadHex) == Some(payload)
    requires DecodeAnchorPayload(q.batch.payloadHex) == Some(payload)
    requires InjectiveOn(rules.sha, PackageInputs(p) + PackageInputs(q))
    ensures q.batch == p.batch.(payloadHex := q.batch.payloadHex)
    ensures |q.records| == |p.records|
    ensures forall i :: 0 <= i < |p.records| ==>
              q.records[i].id == p.records[i].id
              && Denote(Obj(q.records[i].envelope)) == Denote(Obj(p.records[i].envelope))
  {
    BatchDetermined(rules, p, q, payload);
    RecordDetermined(rules, p, q, 0);
    forall i | 0 <= i < |p.records|
      ensures q.records[i].id == p.records[i].id
      ensures Denote(Obj(q.records[i].envelope)) == Denote(Obj(p.records[i].envelope))
    {
      RecordDetermined(rules, p, q, i);
    }
  }
}
