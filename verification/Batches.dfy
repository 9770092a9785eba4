/** Records, batch manifests and packages as far as their identifiers go
    (hap/records.py, hap/batches.py, hap/packages.py). */
module Batches {
  import opened Bytes
  import opened Order
  import opened Hex
  import opened Json
  import opened Merkle
  import opened Bitcoin

  /** A signed record. `envelope` is the whole dictionary but for its identifier; the other
      fields are the ones the index keeps in columns of their own. */
  datatype Record = Record(
    id: string, kind: string, author: string, target: Option<string>, tags: seq<string>, envelope: seq<Field>)

  /** What a node trusts: the hash, and the field-by-field and signature checks of a record. */
  datatype Rules = Rules(sha: HashFunction, wellFormed: Record -> bool)

  function RecordJson(r: Record): Json {
    Obj(r.envelope + [Field("record_id", Str(r.id))])
  }

  /** No record is nested deeper than its list of sources or of evidence. */
  const RECORD_LEVELS := 3

  function HashText(sha: HashFunction, v: Json): Option<string> {
    match CanonicalBytes(v)
    case Some(bytes) => Some(ToHex(sha(bytes)))
    case None => None
  }

  predicate ValidRecord(rules: Rules, r: Record) {
    && rules.wellFormed(r)
    && IsDict(RecordJson(r)) && IsDict(Obj(r.envelope))
    && Valid(RecordJson(r), MAX_DEPTH - RECORD_LEVELS) && Valid(Obj(r.envelope), MAX_DEPTH - RECORD_LEVELS)
    && IsDigestText(r.id)
    && HashText(rules.sha, Obj(r.envelope)) == Some(r.id)
  }

  // ---- batch manifests ------------------------------------------------------------

  datatype Batch = Batch(
    createdAt: int, network: string, recordCount: int, recordIds: seq<string>, merkleRoot: string,
    batchId: string, payloadHex: string)

  const MAX_BATCH_RECORDS := 50_000

  function Self(text: string): string {
    text
  }

  function Texts(ids: seq<string>): (r: seq<Json>)
    ensures |r| == |ids| && forall i :: 0 <= i < |ids| ==> r[i] == Str(ids[i])
  {
    seq(|ids|, i requires 0 <= i < |ids| => Str(ids[i]))
  }

  function Algorithms(): Json {
    Obj([
      Field("record_id", Str("sha256")),
      Field("batch_id", Str("sha256")),
      Field("merkle_parent", Str("sha256(left||right)")),
      Field("canonical_json", Str("hap-canonical-json-v1"))])
  }

  function SmallManifestFields(b: Batch): seq<Field> {
    [ Field("schema", Str("hap.batch")),
      Field("version", Int(3)),
      Field("created_at", Int(b.createdAt)),
      Field("network", Str(b.network)),
      Field("record_count", Int(b.recordCount)),
      Field("merkle_root", Str(b.merkleRoot))]
  }

  function OrderingField(): Field {
    Field("record_ordering", Str("record_id_lexicographic_v1"))
  }

  function IdsField(b: Batch): Field {
    Field("record_ids", Arr(Texts(b.recordIds)))
  }

  function AlgorithmsField(): Field {
    Field("algorithms", Algorithms())
  }

  function LargeManifestFields(b: Batch): seq<Field> {
    [OrderingField()] + [IdsField(b)] + [AlgorithmsField()]
  }

  function ManifestJson(b: Batch): Json {
    Obj(SmallManifestFields(b) + LargeManifestFields(b))
  }

  function BatchJson(b: Batch): Json {
    Obj(SmallManifestFields(b) + LargeManifestFields(b) + IdentifierFields(b))
  }

  function IdentifierFields(b: Batch): seq<Field> {
    [Field("batch_id", Str(b.batchId)), Field("payload_hex", Str(b.payloadHex))]
  }

  predicate IsNetwork(network: string) {
    network == "mainnet" || network == "signet" || network == "regtest"
  }

  predicate AllDigests(ids: seq<string>) {
    forall i :: 0 <= i < |ids| ==> IsDigestText(ids[i])
  }

  predicate HasDuplicate(ids: seq<string>) {
    exists i, j :: 0 <= i < j < |ids| && ids[i] == ids[j]
  }

  /** `validate_batch`, check by check. */
  predicate ValidBatch(sha: HashFunction, b: Batch) {
    && IsNetwork(b.network)
    && b.createdAt >= 0
    && 0 < |b.recordIds| <= MAX_BATCH_RECORDS
    && AllDigests(b.recordIds)
    && b.recordIds == SortBy(Self, b.recordIds)
    && !HasDuplicate(b.recordIds)
    && b.recordCount == |b.recordIds|
    && Some(b.merkleRoot) == RootText(sha, b.recordIds)
    && IsDigestText(b.batchId)
    && HashText(sha, ManifestJson(b)) == Some(b.batchId)
    && (match DecodeAnchorPayload(b.payloadHex)
        case Some(payload) => payload.commitmentType == BATCH_MANIFEST && payload.manifestHash == b.batchId
        case None => false)
  }

  /** The dictionary that `create_batch_manifest` fills, before it is validated. */
  function Manifest(sha: HashFunction, recordIds: seq<string>, network: string, createdAt: int, root: string):
    Option<Batch>
  {
    var ordered := SortBy(Self, recordIds);
    var draft := Batch(createdAt, network, |ordered|, ordered, root, "", "");
    match HashText(sha, ManifestJson(draft))
    case None => None
    case Some(id) =>
      match EncodeAnchorPayload(id, BATCH_MANIFEST as int)
      case None => None
      case Some(payload) => Some(draft.(batchId := id, payloadHex := payload))
  }

  /** What can be batched at all. */
  predicate Batchable(recordIds: seq<string>, network: string, createdAt: int) {
    && 0 < |recordIds| <= MAX_BATCH_RECORDS
    && AllDigests(recordIds)
    && !HasDuplicate(recordIds)
    && IsNetwork(network)
    && 0 <= createdAt <= MAX_SAFE
  }

  lemma {:induction false} DigestsAreLeaves(ids: seq<string>)
    requires AllDigests(ids)
    ensures Leaves(ids).Some?
  {
    if ids != [] {
      assert IsDigestText(ids[0]);
      DigestsAreLeaves(ids[1..]);
    }
  }

  lemma DistinctIds(ids: seq<string>)
    ensures !HasDuplicate(ids) <==> DistinctKeys(Self, ids)
  {
    if !HasDuplicate(ids) {
      forall i, j | 0 <= i < j < |ids|
        ensures Self(ids[i]) != Self(ids[j])
      {
      }
    } else {
      var i, j :| 0 <= i < j < |ids| && ids[i] == ids[j];
      assert Self(ids[i]) == Self(ids[j]);
    }
  }

  lemma DigestsOfSubset(a: seq<string>, b: seq<string>)
    requires AllDigests(b) && forall x :: x in a ==> x in b
    ensures AllDigests(a)
  {
    forall i | 0 <= i < |a|
      ensures IsDigestText(a[i])
    {
      assert a[i] in b;
    }
  }

  /** Sorting changes neither the elements nor whether one of them is repeated. */
  lemma SortedIds(ids: seq<string>)
    ensures var ordered := SortBy(Self, ids);
            && (forall x :: x in ordered <==> x in ids)
            && (HasDuplicate(ordered) <==> HasDuplicate(ids))
            && (!HasDuplicate(ids) ==> SortBy(Self, ordered) == ordered)
            && (AllDigests(ordered) <==> AllDigests(ids))
  {
    var ordered := SortBy(Self, ids);
    SameElements(ordered, ids);
    if AllDigests(ordered) {
      DigestsOfSubset(ids, ordered);
    }
    if AllDigests(ids) {
      DigestsOfSubset(ordered, ids);
    }
    DistinctIds(ids);
    DistinctIds(ordered);
    if !HasDuplicate(ids) {
      SortStrict(Self, ids);
      SortOfStrict(Self, ordered);
      DistinctKeysPermuted(Self, ordered, ids);
    } else if !HasDuplicate(ordered) {
      DistinctKeysPermuted(Self, ids, ordered);
    }
  }

  lemma ManifestIsShallow(b: Batch)
    requires 0 <= b.createdAt <= MAX_SAFE && 0 <= b.recordCount <= MAX_BATCH_RECORDS
    ensures Valid(ManifestJson(b), 0)
  {
    forall i | 0 <= i < |b.recordIds|
      ensures Valid(Texts(b.recordIds)[i], 2)
    {
    }
    assert Valid(Arr(Texts(b.recordIds)), 1);
    assert Valid(Algorithms(), 1);
  }

  lemma DigestTextOfHex(d: Digest)
    ensures IsDigestText(ToHex(d)) && Decode(ToHex(d)) == d
  {
    FromToHex(d);
  }

  lemma HashIsIdentifier(sha: HashFunction, v: Json)
    requires Valid(v, 0)
    ensures HashText(sha, v).Some? && IsDigestText(HashText(sha, v).value)
    ensures var id := HashText(sha, v).value;
            var payload := EncodeAnchorPayload(id, BATCH_MANIFEST as int);
            payload.Some? && DecodeAnchorPayload(payload.value) == Some(AnchorPayload(BATCH_MANIFEST, id))
  {
    var digest := sha(CanonicalBytes(v).value);
    DigestTextOfHex(digest);
    PayloadRoundTrip(digest, BATCH_MANIFEST);
  }

  lemma ManifestIgnoresId(b: Batch, id: string, payload: string)
    ensures ManifestJson(b.(batchId := id, payloadHex := payload)) == ManifestJson(b)
  {
  }

  lemma IsValidBatch(sha: HashFunction, b: Batch)
    requires Batchable(b.recordIds, b.network, b.createdAt)
    requires b.recordIds == SortBy(Self, b.recordIds) && b.recordCount == |b.recordIds|
    requires Some(b.merkleRoot) == RootText(sha, b.recordIds)
    requires IsDigestText(b.batchId) && HashText(sha, ManifestJson(b)) == Some(b.batchId)
    requires DecodeAnchorPayload(b.payloadHex) == Some(AnchorPayload(BATCH_MANIFEST, b.batchId))
    ensures ValidBatch(sha, b)
  {
  }

  lemma ManifestOf(
    sha: HashFunction, recordIds: seq<string>, network: string, createdAt: int, root: string, draft: Batch, id: string,
    payload: string)
    requires draft == Batch(createdAt, network, |SortBy(Self, recordIds)|, SortBy(Self, recordIds), root, "", "")
    requires HashText(sha, ManifestJson(draft)) == Some(id)
    requires EncodeAnchorPayload(id, BATCH_MANIFEST as int) == Some(payload)
    ensures Manifest(sha, recordIds, network, createdAt, root) == Some(draft.(batchId := id, payloadHex := payload))
  {
  }

  /** A sorted list that can be batched, with its root, hashes to an identifier and makes a valid batch. */
  lemma DraftIsValid(sha: HashFunction, draft: Batch) returns (id: string, payload: string)
    requires Batchable(draft.recordIds, draft.network, draft.createdAt)
    requires draft.recordIds == SortBy(Self, draft.recordIds) && draft.recordCount == |draft.recordIds|
    requires Some(draft.merkleRoot) == RootText(sha, draft.recordIds)
    ensures HashText(sha, ManifestJson(draft)) == Some(id)
    ensures EncodeAnchorPayload(id, BATCH_MANIFEST as int) == Some(payload)
    ensures ValidBatch(sha, draft.(batchId := id, payloadHex := payload))
  {
    ManifestIsShallow(draft);
    HashIsIdentifier(sha, ManifestJson(draft));
    id := HashText(sha, ManifestJson(draft)).value;
    payload := EncodeAnchorPayload(id, BATCH_MANIFEST as int).value;
    ManifestIgnoresId(draft, id, payload);
    IsValidBatch(sha, draft.(batchId := id, payloadHex := payload));
  }

  lemma BatchableIsValid(sha: HashFunction, recordIds: seq<string>, network: string, createdAt: int)
    requires Batchable(recordIds, network, createdAt)
    ensures var root := RootText(sha, SortBy(Self, recordIds));
            && root.Some?
            && Manifest(sha, recordIds, network, createdAt, root.value).Some?
            && ValidBatch(sha, Manifest(sha, recordIds, network, createdAt, root.value).value)
  {
    var ordered := SortBy(Self, recordIds);
    SortedIds(recordIds);
    DigestsAreLeaves(ordered);
    var root := RootText(sha, ordered).value;
    var draft := Batch(createdAt, network, |ordered|, ordered, root, "", "");
    var id, payload := DraftIsValid(sha, draft);
    ManifestOf(sha, recordIds, network, createdAt, root, draft, id, payload);
  }

  lemma ValidTime(sha: HashFunction, b: Batch)
    requires ValidBatch(sha, b)
    ensures 0 <= b.createdAt <= MAX_SAFE
  {
    assert Valid(ManifestJson(b), 0);
    var small, fields := SmallManifestFields(b), ManifestJson(b).fields;
    assert small[2] == Field("created_at", Int(b.createdAt));
    assert fields[2] == small[2];
  }

  lemma ValidIsBatchable(sha: HashFunction, recordIds: seq<string>, b: Batch)
    requires ValidBatch(sha, b) && b.recordIds == SortBy(Self, recordIds)
    ensures Batchable(recordIds, b.network, b.createdAt)
  {
    SortedIds(recordIds);
    ValidTime(sha, b);
  }

  /** The validator reads the payload as bytes, so its text may be spelled in more ways than one:
      here with white space in front. */
  lemma SpelledPayload(sha: HashFunction, b: Batch)
    requires ValidBatch(sha, b)
    ensures ValidBatch(sha, b.(payloadHex := [' '] + b.payloadHex))
  {
    var spelled := [' '] + b.payloadHex;
    assert spelled[1..] == b.payloadHex;
    assert FromHex(spelled) == FromHex(b.payloadHex);
    assert DecodeAnchorPayload(spelled) == DecodeAnchorPayload(b.payloadHex);
    ManifestIgnoresId(b, b.batchId, spelled);
    assert ManifestJson(b.(payloadHex := spelled)) == ManifestJson(b);
  }

  method CreateBatchManifest(sha: HashFunction, recordIds: seq<string>, network: string, createdAt: int)
    returns (batch: Option<Batch>)
    ensures batch.Some? <==> Batchable(recordIds, network, createdAt)
    ensures batch.Some? ==>
              && ValidBatch(sha, batch.value)
              && batch.value.recordIds == SortBy(Self, recordIds)
              && batch.value.network == network && batch.value.createdAt == createdAt
              && Some(batch.value.payloadHex) == EncodeAnchorPayload(batch.value.batchId, BATCH_MANIFEST as int)
  {
    if recordIds == [] {
      return None;
    }
    if Batchable(recordIds, network, createdAt) {
      BatchableIsValid(sha, recordIds, network, createdAt);
    }
    var ordered := SortBy(Self, recordIds);
    var root := MerkleRoot(sha, ordered);
    if root.None? {
      return None;
    }
    var draft := Manifest(sha, recordIds, network, createdAt, root.value);
    if draft.None? || !ValidBatch(sha, draft.value) {
      return None;
    }
    batch := draft;
    ValidIsBatchable(sha, recordIds, batch.value);
  }
}
