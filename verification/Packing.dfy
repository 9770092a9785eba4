/** Making a package from a batch and its records, and how many records fit
    (hap/packages.py:29-42, hap/service.py:192-218). */
module Packing {
  import opened Bytes
  import opened Hex
  import opened Order
  import opened Json
  import opened Bitcoin
  import opened Batches
  import opened Packages
  import opened PackageSize
  import opened Sums
  import opened Tables

  /** The records in batch order; nothing when one is missing. */
  function Ordered(ids: seq<string>, records: seq<Record>): (r: Option<seq<Record>>)
    ensures r.Some? ==> Ids(r.value) == ids && forall x :: x in r.value ==> x in records
  {
    if ids == [] then Some([])
    else
      match (Row(RecordIdOf, records, ids[0]), Ordered(ids[1..], records))
      case (Some(first), Some(rest)) =>
        assert Ids([first] + rest) == [first.id] + Ids(rest);
        Some([first] + rest)
      case _ => None
  }

  /** `create_package`; nothing when it raises. */
  function CreatePackage(rules: Rules, batch: Batch, records: seq<Record>): Option<Package> {
    match Ordered(batch.recordIds, records)
    case None => None
    case Some(ordered) =>
      match HashText(rules.sha, Obj(PackageFields(batch, ordered)))
      case None => None
      case Some(id) =>
        var p := Package(batch, ordered, id);
        if ValidPackage(rules, p) then Some(p) else None
  }

  lemma IdsCons(r: Record, rest: seq<Record>)
    ensures Ids([r] + rest) == [r.id] + Ids(rest)
  {
  }

  lemma InsertTexts(x: string, y: string, s: seq<string>)
    ensures Insert(Self, x, [y] + s) == if Less(y, x) then [y] + Insert(Self, x, s) else [x] + ([y] + s)
  {
    assert ([y] + s)[1..] == s;
  }

  lemma {:induction false} InsertIds(r: Record, records: seq<Record>)
    ensures Ids(Insert(RecordIdOf, r, records)) == Insert(Self, r.id, Ids(records))
  {
    if records == [] {
      assert Ids([r]) == [r.id] && Ids(records) == [];
    } else {
      var first, rest := records[0], records[1..];
      assert records == [first] + rest;
      IdsCons(first, rest);
      InsertTexts(r.id, first.id, Ids(rest));
      if Less(first.id, r.id) {
        InsertIds(r, rest);
        IdsCons(first, Insert(RecordIdOf, r, rest));
      } else {
        IdsCons(r, records);
      }
    }
  }

  lemma SortTexts(x: string, s: seq<string>)
    ensures SortBy(Self, [x] + s) == Insert(Self, x, SortBy(Self, s))
  {
    assert ([x] + s)[1..] == s;
  }

  lemma {:induction false} SortIds(records: seq<Record>)
    ensures Ids(SortBy(RecordIdOf, records)) == SortBy(Self, Ids(records))
  {
    if records == [] {
      assert Ids(records) == [];
    } else {
      var first, rest := records[0], records[1..];
      assert records == [first] + rest;
      IdsCons(first, rest);
      SortIds(rest);
      InsertIds(first, SortBy(RecordIdOf, rest));
      SortTexts(first.id, Ids(rest));
    }
  }

  lemma {:induction false} OrderedRows(wanted: seq<Record>, records: seq<Record>)
    requires Unique(RecordIdOf, records) && forall r :: r in wanted ==> r in records
    ensures Ordered(Ids(wanted), records) == Some(wanted)
  {
    if wanted != [] {
      var found := Row(RecordIdOf, records, wanted[0].id);
      assert wanted[0] in wanted && RecordIdOf(wanted[0]) == wanted[0].id;
      SameRow(RecordIdOf, records, found.value, wanted[0]);
      OrderedRows(wanted[1..], records);
      assert Ids(wanted)[1..] == Ids(wanted[1..]);
      assert wanted == [wanted[0]] + wanted[1..];
    }
  }

  /** The package of a batch of these records holds exactly them, sorted by identifier. */
  lemma OrderedIsSorted(records: seq<Record>)
    requires Unique(RecordIdOf, records)
    ensures Ordered(SortBy(Self, Ids(records)), records) == Some(SortBy(RecordIdOf, records))
  {
    var sorted := SortBy(RecordIdOf, records);
    SortIds(records);
    SameElements(sorted, records);
    OrderedRows(sorted, records);
  }

  ghost predicate AllValid(rules: Rules, records: seq<Record>) {
    forall r :: r in records ==> ValidRecord(rules, r)
  }

  // ---- depth ----------------------------------------------------------------------

  lemma {:induction false} ValidHigher(v: Json, depth: nat, lower: nat)
    requires Valid(v, depth) && lower <= depth
    ensures Valid(v, lower)
  {
    match v {
      case Arr(items) =>
        forall i | 0 <= i < |items|
          ensures Valid(items[i], lower + 1)
        {
          ValidHigher(items[i], depth + 1, lower + 1);
        }
      case Obj(fields) =>
        forall i | 0 <= i < |fields|
          ensures Valid(fields[i].value, lower + 1)
        {
          ValidHigher(fields[i].value, depth + 1, lower + 1);
        }
      case _ =>
    }
  }

  lemma RecordsAreShallow(rules: Rules, records: seq<Record>)
    requires AllValid(rules, records)
    ensures Valid(RecordsField(records).value, 1)
  {
    forall i | 0 <= i < |records|
      ensures Valid(RecordJsons(records)[i], 2)
    {
      assert records[i] in records;
      ValidHigher(RecordJson(records[i]), MAX_DEPTH - RECORD_LEVELS, 2);
    }
  }

  lemma BatchIsShallow(b: Batch)
    requires 0 <= b.createdAt <= MAX_SAFE && 0 <= b.recordCount <= MAX_BATCH_RECORDS
    ensures Valid(BatchJson(b), 2)
  {
    assert forall i :: 0 <= i < |b.recordIds| ==> Valid(Texts(b.recordIds)[i], 4);
    assert Valid(IdsField(b).value, 3);
    assert Valid(AlgorithmsField().value, 3);
  }

  lemma PackageIsShallow(rules: Rules, b: Batch, records: seq<Record>, id: string)
    requires AllValid(rules, records)
    requires 0 <= b.createdAt <= MAX_SAFE && 0 <= b.recordCount <= MAX_BATCH_RECORDS
    ensures Valid(Obj(PackageFields(b, records)), 0)
    ensures Valid(PackageJson(Package(b, records, id)), 0)
  {
    RecordsAreShallow(rules, records);
    BatchIsShallow(b);
    ValidHigher(BatchJson(b), 2, 1);
  }

  // ---- how much fits --------------------------------------------------------------

  /** The estimate after these records. */
  function Estimate(records: seq<Record>): nat {
    BASE_ESTIMATE + RecordsBytes(records) + RECORD_OVERHEAD * |records|
  }

  lemma EstimateNext(records: seq<Record>, r: Record)
    ensures Estimate(records + [r]) == Estimate(records) + RecordBytes(r) + RECORD_OVERHEAD
  {
    SumAppend(RecordBytes, records, [r]);
    SumOne(RecordBytes, r);
  }

  /** The records chosen from a list: the longest prefix whose estimate stays within the limit. */
  ghost predicate GreedyChoice(candidates: seq<Record>, maxBytes: int, k: nat) {
    && k <= |candidates|
    && (k > 0 ==> Estimate(candidates[..k]) <= maxBytes)
    && (k < |candidates| ==> Estimate(candidates[..k + 1]) > maxBytes)
  }

  lemma {:induction false} EstimateGrows(candidates: seq<Record>, j: nat, k: nat)
    requires j <= k <= |candidates|
    ensures Estimate(candidates[..j]) <= Estimate(candidates[..k])
  {
    if j < k {
      EstimateGrows(candidates, j, k - 1);
      assert candidates[..k] == candidates[..k - 1] + [candidates[k - 1]];
      EstimateNext(candidates[..k - 1], candidates[k - 1]);
    }
  }

  /** There is one greedy choice only. */
  lemma GreedyUnique(candidates: seq<Record>, maxBytes: int, j: nat, k: nat)
    requires GreedyChoice(candidates, maxBytes, j) && GreedyChoice(candidates, maxBytes, k)
    ensures j == k
  {
    if j < k {
      EstimateGrows(candidates, j + 1, k);
    } else if k < j {
      EstimateGrows(candidates, k + 1, j);
    }
  }

  /** The batch that was made for these records. */
  ghost predicate BatchOf(rules: Rules, batch: Batch, records: seq<Record>) {
    && ValidBatch(rules.sha, batch) && batch.createdAt <= MAX_SAFE
    && batch.recordIds == SortBy(Self, Ids(records))
    && EncodeAnchorPayload(batch.batchId, BATCH_MANIFEST as int) == Some(batch.payloadHex)
  }

  lemma SortedForBatch(rules: Rules, batch: Batch, records: seq<Record>)
    requires records != [] && Unique(RecordIdOf, records) && AllValid(rules, records)
    requires BatchOf(rules, batch, records)
    ensures var sorted := SortBy(RecordIdOf, records);
            && sorted != [] && Ordered(batch.recordIds, records) == Some(sorted)
            && Ids(sorted) == batch.recordIds && AllValid(rules, sorted)
  {
    OrderedIsSorted(records);
    SortIds(records);
    SameElements(SortBy(RecordIdOf, records), records);
  }

  lemma PackageMade(rules: Rules, batch: Batch, records: seq<Record>)
    requires records != [] && Unique(RecordIdOf, records) && AllValid(rules, records)
    requires BatchOf(rules, batch, records)
    ensures CreatePackage(rules, batch, records).Some?
    ensures var p := CreatePackage(rules, batch, records).value;
            && p.batch == batch && p.records == SortBy(RecordIdOf, records)
            && HashText(rules.sha, Obj(PackageFields(batch, p.records))) == Some(p.packageId)
            && AllValid(rules, p.records)
  {
    var sorted := SortBy(RecordIdOf, records);
    SortedForBatch(rules, batch, records);
    PackageHashed(rules, batch, sorted);
    var id := HashText(rules.sha, Obj(PackageFields(batch, sorted))).value;
    PackIsValid(rules, Package(batch, sorted, id));
    PackageCreated(rules, batch, records, sorted, id);
  }

  lemma PackageHashed(rules: Rules, batch: Batch, sorted: seq<Record>)
    requires AllValid(rules, sorted) && 0 <= batch.createdAt <= MAX_SAFE && 0 <= batch.recordCount <= MAX_BATCH_RECORDS
    ensures HashText(rules.sha, Obj(PackageFields(batch, sorted))).Some?
    ensures IsDigestText(HashText(rules.sha, Obj(PackageFields(batch, sorted))).value)
  {
    PackageIsShallow(rules, batch, sorted, "");
    HashIsIdentifier(rules.sha, Obj(PackageFields(batch, sorted)));
  }

  lemma PackageCreated(rules: Rules, batch: Batch, records: seq<Record>, sorted: seq<Record>, id: string)
    requires Ordered(batch.recordIds, records) == Some(sorted)
    requires HashText(rules.sha, Obj(PackageFields(batch, sorted))) == Some(id)
    requires ValidPackage(rules, Package(batch, sorted, id))
    ensures CreatePackage(rules, batch, records) == Some(Package(batch, sorted, id))
  {
  }

  lemma PackageBounded(rules: Rules, p: Package, records: seq<Record>)
    requires BatchOf(rules, p.batch, records) && p.records == SortBy(RecordIdOf, records) && AllValid(rules, p.records)
    requires IsDigestText(p.packageId)
    ensures CanonicalBytes(PackageJson(p)).Some?
    ensures |CanonicalBytes(PackageJson(p)).value| <= Estimate(records)
  {
    PackageIsShallow(rules, p.batch, p.records, p.packageId);
    PackageWeight(rules.sha, p);
    SumPermuted(RecordBytes, p.records, records);
  }

  /** A valid batch of distinct valid records always packs, within the estimate. */
  lemma PackageFits(rules: Rules, batch: Batch, records: seq<Record>)
    requires records != [] && Unique(RecordIdOf, records) && AllValid(rules, records)
    requires BatchOf(rules, batch, records)
    ensures CreatePackage(rules, batch, records).Some?
    ensures var p := CreatePackage(rules, batch, records).value;
            && CanonicalBytes(PackageJson(p)).Some?
            && |CanonicalBytes(PackageJson(p)).value| <= Estimate(records)
  {
    PackageMade(rules, batch, records);
    var p := CreatePackage(rules, batch, records).value;
    PackageIsShallow(rules, batch, p.records, "");
    HashIsIdentifier(rules.sha, Obj(PackageFields(batch, p.records)));
    PackageBounded(rules, p, records);
  }

  lemma PackIsValid(rules: Rules, p: Package)
    requires ValidBatch(rules.sha, p.batch) && p.records != [] && AllValid(rules, p.records)
    requires Ids(p.records) == p.batch.recordIds
    requires HashText(rules.sha, Obj(PackageFields(p.batch, p.records))) == Some(p.packageId)
    ensures ValidPackage(rules, p)
  {
    forall i | 0 <= i < |p.records|
      ensures ValidRecord(rules, p.records[i])
    {
      assert p.records[i] in p.records;
    }
  }
}
