/** Snapshots: export, validation and restoring into a node (hap/archive.py, hap/service.py). */
module Recovery {
  import opened Bytes
  import opened Json
  import opened Batches
  import opened Packages
  import opened Packing
  import opened Tables
  import opened AnchorLaws
  import opened ChainIndex
  import opened Runs
  import opened Service
  import opened Steps
  import opened Replication

  datatype Snapshot = Snapshot(
    createdAt: int, records: seq<Record>, batches: seq<Batch>, anchors: seq<Anchor>, snapshotId: string)

  function StatusText(s: Status): string {
    match s
    case Unverified => "unverified"
    case Broadcast => "broadcast"
    case Confirmed => "confirmed"
    case Reorganised => "reorganised"
    case Invalid => "invalid"
  }

  function AnchorJson(a: Anchor): Json {
    Obj([
      Field("txid", Str(a.txid)),
      Field("vout", Int(a.vout)),
      Field("batch_id", Str(a.batchId)),
      Field("network", Str(a.network)),
      Field("status", Str(StatusText(a.status))),
      Field("anchored_at", Int(a.anchoredAt)),
      Field("block_hash", if a.blockHash.Some? then Str(a.blockHash.value) else Null),
      Field("block_height", if a.blockHeight.Some? then Int(a.blockHeight.value) else Null)])
  }

  function BatchJsons(batches: seq<Batch>): (r: seq<Json>)
    ensures |r| == |batches| && forall i :: 0 <= i < |batches| ==> r[i] == BatchJson(batches[i])
  {
    seq(|batches|, i requires 0 <= i < |batches| => BatchJson(batches[i]))
  }

  function AnchorJsons(anchors: seq<Anchor>): (r: seq<Json>)
    ensures |r| == |anchors| && forall i :: 0 <= i < |anchors| ==> r[i] == AnchorJson(anchors[i])
  {
    seq(|anchors|, i requires 0 <= i < |anchors| => AnchorJson(anchors[i]))
  }

  function SnapshotBody(s: Snapshot): Json {
    Obj([
      Field("schema", Str("hap.snapshot")),
      Field("version", Int(1)),
      Field("created_at", Int(s.createdAt)),
      Field("records", Arr(RecordJsons(s.records))),
      Field("batches", Arr(BatchJsons(s.batches))),
      Field("anchors", Arr(AnchorJsons(s.anchors)))])
  }

  /** The closure checks of `validate_snapshot`. */
  predicate Closed(rules: Rules, s: Snapshot) {
    && (forall r :: r in s.records ==> ValidRecord(rules, r))
    && Unique(RecordIdOf, s.records)
    && (forall r :: r in s.records && r.target.Some? ==> HasId(s.records, r.target.value))
    && (forall b :: b in s.batches ==> ValidBatch(rules.sha, b) && IdsStored(s.records, b))
    && Unique(BatchIdOf, s.batches)
    && (forall a :: a in s.anchors ==> ValidAnchorReference(a) && Row(BatchIdOf, s.batches, a.batchId).Some?)
    && Unique(AnchorKey, s.anchors)
  }

  /** `validate_snapshot`. */
  predicate ValidSnapshot(rules: Rules, s: Snapshot) {
    && s.createdAt >= 0
    && HashText(rules.sha, SnapshotBody(s)) == Some(s.snapshotId)
    && Closed(rules, s)
  }

  // ---- exporting ------------------------------------------------------------------

  function SnapshotOf(t: Tables, now: int): Snapshot {
    Snapshot(now, t.records, t.batches, t.anchors, "")
  }

  ghost predicate TargetsStored(records: seq<Record>) {
    forall r :: r in records && r.target.Some? ==> HasId(records, r.target.value)
  }

  ghost predicate ReferencesValid(anchors: seq<Anchor>) {
    forall a :: a in anchors ==> ValidAnchorReference(a)
  }

  /** What a node has accepted closes under everything but the targets of its records, which
      replication and packages do not ask for, and the shape of its anchors, which the chain and
      the wallet bring. */
  lemma WellformedCloses(rules: Rules, t: Tables, now: int)
    requires Wellformed(rules, t)
    ensures Closed(rules, SnapshotOf(t, now)) <==> TargetsStored(t.records) && ReferencesValid(t.anchors)
  {
    forall a | a in t.anchors
      ensures Row(BatchIdOf, t.batches, a.batchId).Some?
    {
      assert AnchorLinked(t, a);
    }
  }

  // ---- which snapshots can be hashed ----------------------------------------------

  predicate IsSafe(n: int) {
    -MAX_SAFE <= n <= MAX_SAFE
  }

  /** The numbers of an anchor are among those that canonical JSON can print. */
  predicate AnchorSafe(a: Anchor) {
    IsSafe(a.vout) && IsSafe(a.anchoredAt) && (a.blockHeight.Some? ==> IsSafe(a.blockHeight.value))
  }

  ghost predicate AnchorsSafe(anchors: seq<Anchor>) {
    forall a :: a in anchors ==> AnchorSafe(a)
  }

  lemma AnchorPrintable(a: Anchor)
    ensures Valid(AnchorJson(a), 2) <==> AnchorSafe(a)
  {
    var fields := AnchorJson(a).fields;
    assert fields[1].value == Int(a.vout) && fields[5].value == Int(a.anchoredAt);
    assert fields[7].value == if a.blockHeight.Some? then Int(a.blockHeight.value) else Null;
  }

  lemma AnchorsPrintable(anchors: seq<Anchor>)
    ensures Valid(Arr(AnchorJsons(anchors)), 1) <==> AnchorsSafe(anchors)
  {
    forall i | 0 <= i < |anchors|
      ensures Valid(AnchorJsons(anchors)[i], 2) <==> AnchorSafe(anchors[i])
    {
      AnchorPrintable(anchors[i]);
    }
    if Valid(Arr(AnchorJsons(anchors)), 1) {
      forall a | a in anchors
        ensures AnchorSafe(a)
      {
        var i :| 0 <= i < |anchors| && anchors[i] == a;
        assert Valid(AnchorJsons(anchors)[i], 2);
      }
    }
  }

  lemma BatchPrintable(sha: HashFunction, b: Batch)
    requires ValidBatch(sha, b)
    ensures Valid(BatchJson(b), 2)
  {
    ValidTime(sha, b);
    BatchIsShallow(b);
  }

  lemma BatchesPrintable(sha: HashFunction, batches: seq<Batch>)
    requires forall b :: b in batches ==> ValidBatch(sha, b)
    ensures Valid(Arr(BatchJsons(batches)), 1)
  {
    forall i | 0 <= i < |batches|
      ensures Valid(BatchJsons(batches)[i], 2)
    {
      BatchPrintable(sha, batches[i]);
    }
  }

  /** A body is printable when its time and its three lists are. */
  lemma BodyPrintable(s: Snapshot)
    requires Valid(Arr(RecordJsons(s.records)), 1) && Valid(Arr(BatchJsons(s.batches)), 1)
    ensures Valid(SnapshotBody(s), 0) <==> IsSafe(s.createdAt) && Valid(Arr(AnchorJsons(s.anchors)), 1)
  {
    var fields := SnapshotBody(s).fields;
    assert fields[2].value == Int(s.createdAt) && fields[5].value == Arr(AnchorJsons(s.anchors));
    assert fields[3].value == Arr(RecordJsons(s.records)) && fields[4].value == Arr(BatchJsons(s.batches));
  }

  /** What a node has accepted can be hashed exactly when the numbers of its anchors, which
      nothing else bounds, are among those that canonical JSON can print, and the time is. */
  lemma SnapshotHashes(rules: Rules, t: Tables, now: int)
    requires Wellformed(rules, t)
    ensures HashText(rules.sha, SnapshotBody(SnapshotOf(t, now))).Some? <==> IsSafe(now) && AnchorsSafe(t.anchors)
  {
    RecordsAreShallow(rules, t.records);
    BatchesPrintable(rules.sha, t.batches);
    BodyPrintable(SnapshotOf(t, now));
    AnchorsPrintable(t.anchors);
  }

  /** What decides whether a well-formed node can export. */
  ghost predicate Exports(t: Tables, now: int) {
    && 0 <= now <= MAX_SAFE && TargetsStored(t.records)
    && ReferencesValid(t.anchors) && AnchorsSafe(t.anchors)
  }

  /** `export_snapshot`; nothing when the result does not validate. */
  method ExportSnapshot(service: HistoryAnchorService, now: int) returns (snapshot: Option<Snapshot>)
    ensures snapshot.Some? ==>
              var s, t := snapshot.value, service.storage.State();
              && ValidSnapshot(service.rules, s) && s.createdAt == now
              && s.records == t.records && s.batches == t.batches && s.anchors == t.anchors
    ensures var draft := SnapshotOf(service.storage.State(), now);
            snapshot.Some? <==> now >= 0 && Closed(service.rules, draft) && Valid(SnapshotBody(draft), 0)
    ensures service.Valid() ==> (snapshot.Some? <==> Exports(service.storage.State(), now))
  {
    var draft := Snapshot(now, service.storage.records, service.storage.batches, service.storage.anchors, "");
    var id := HashText(service.rules.sha, SnapshotBody(draft));
    if service.Valid() {
      WellformedCloses(service.rules, service.storage.State(), now);
      SnapshotHashes(service.rules, service.storage.State(), now);
    }
    if id.None? {
      return None;
    }
    var made := draft.(snapshotId := id.value);
    assert SnapshotBody(made) == SnapshotBody(draft);
    snapshot := if ValidSnapshot(service.rules, made) then Some(made) else None;
  }

  // ---- how a node loses the ability to export -------------------------------------

  /** A package one of whose new records has its target neither in the package nor in the node is
      taken in like any other, by what `ImportPackage` promises, and then nothing can be exported. */
  lemma PackageBlocksExport(rules: Rules, t: Tables, p: Package, r: Record, u: Tables, now: int)
    requires ValidPackage(rules, p) && r in p.records && !HasId(t.records, r.id)
    requires r.target.Some? && !HasId(t.records, r.target.value) && !HasId(p.records, r.target.value)
    requires AddsOnly(t.records, u.records, p.records) && HasId(u.records, r.id)
    ensures r in u.records && !Exports(u, now)
  {
    PackageRecordsUnique(rules, p);
    var x :| x in u.records && x.id == r.id;
    AddedOrOld(t.records, u.records, p.records, x);
    SameRow(RecordIdOf, p.records, x, r);
    if y :| y in u.records && y.id == r.target.value {
      AddedOrOld(t.records, u.records, p.records, y);
    }
  }

  lemma AddedOrOld(before: seq<Record>, after: seq<Record>, all: seq<Record>, r: Record)
    requires AddsOnly(before, after, all) && r in after
    ensures r in before || r in all
  {
    var i :| 0 <= i < |after| && after[i] == r;
  }

  /** Exactly this decides whether such a record keeps the node from exporting: its target is not
      there. It may still come. */
  lemma MissingTargetBlocksExport(rules: Rules, t: Tables, r: Record, now: int)
    requires Wellformed(rules, t) && Exports(t, now) && ValidRecord(rules, r) && !HasId(t.records, r.id)
    ensures var u := t.(records := t.records + [r]);
            && Wellformed(rules, u)
            && (Exports(u, now) <==> (r.target.Some? ==> HasId(u.records, r.target.value)))
  {
    var u := t.(records := t.records + [r]);
    WellformedWithRecord(rules, t, r);
    forall s | s in t.records && s.target.Some?
      ensures HasId(u.records, s.target.value)
    {
      var x :| x in t.records && x.id == s.target.value;
      assert x in u.records;
    }
    assert u.records[|t.records|] == r;
  }

  /** A reference from outside is stored as a valid one; whether the anchors can still be printed
      is decided by the numbers it is stored with. */
  lemma ImportKeepsReferences(t: Tables, a: Anchor)
    requires Unique(AnchorKey, t.anchors) && ReferencesValid(t.anchors) && ValidAnchorReference(a)
    requires ImportAnchor(t, a).Some?
    ensures ReferencesValid(ImportAnchor(t, a).value.anchors)
    ensures AnchorsSafe(t.anchors) ==>
              (AnchorsSafe(ImportAnchor(t, a).value.anchors) <==> AnchorSafe(LocalReference(t, a)))
  {
    UpsertRows(AnchorKey, t.anchors, LocalReference(t, a));
  }

  /** A valid reference to a stored batch, at an output whose number canonical JSON cannot print:
      the node takes it, every reference stays valid, and from then on, whatever is added or
      scanned, no snapshot can be made. */
  lemma LargeOutputBlocksExport(rules: Rules, t: Tables, a: Anchor, b: Batch)
    requires Wellformed(rules, t) && ReferencesValid(t.anchors)
    requires ValidAnchorReference(a) && a.vout > MAX_SAFE && !HasOutput(t, AnchorKey(a))
    requires b in t.batches && b.batchId == a.batchId && b.network == a.network
    ensures ImportAnchor(t, a).Some?
    ensures var u := ImportAnchor(t, a).value;
            && Wellformed(rules, u) && ReferencesValid(u.anchors)
            && (forall v, now :: Onward(u, v) ==> !Exports(v, now))
  {
    SameRow(BatchIdOf, t.batches, b, Row(BatchIdOf, t.batches, a.batchId).value);
    assert Row(AnchorKey, t.anchors, AnchorKey(a)).None? by {
      if Row(AnchorKey, t.anchors, AnchorKey(a)).Some? {
        assert HasOutput(t, AnchorKey(a));
      }
    }
    var stored := LocalReference(t, a);
    var u := ImportAnchor(t, a).value;
    assert AnchorLinked(t, stored);
    WellformedWithAnchor(rules, t, stored);
    UpsertRows(AnchorKey, t.anchors, stored);
    forall v: Tables, now: int | Onward(u, v)
      ensures !Exports(v, now)
    {
      assert stored in u.anchors;
      assert HasOutput(v, AnchorKey(stored));
      var x :| x in v.anchors && AnchorKey(x) == AnchorKey(stored);
      assert !AnchorSafe(x);
    }
  }

  // ---- restoring ------------------------------------------------------------------

  /** The tables after `add_batch` for each of these. */
  function AddBatches(t: Tables, batches: seq<Batch>): Tables {
    if batches == [] then t else AddBatch(AddBatches(t, batches[..|batches| - 1]), batches[|batches| - 1])
  }

  /** The tables after `import_anchor_reference` for each of these; nothing once one raises. */
  function ImportAnchors(t: Tables, anchors: seq<Anchor>): Option<Tables> {
    if anchors == [] then Some(t)
    else
      match ImportAnchors(t, anchors[..|anchors| - 1])
      case Some(u) => ImportAnchor(u, anchors[|anchors| - 1])
      case None => None
  }

  lemma NextAnchor(t: Tables, anchors: seq<Anchor>, i: nat)
    requires i < |anchors|
    ensures ImportAnchors(t, anchors[..i + 1]) ==
              match ImportAnchors(t, anchors[..i]) { case Some(u) => ImportAnchor(u, anchors[i]) case None => None }
  {
    assert anchors[..i + 1][..i] == anchors[..i];
  }

  lemma {:induction false} AnchorsStop(t: Tables, anchors: seq<Anchor>, i: nat)
    requires i <= |anchors| && ImportAnchors(t, anchors[..i]).None?
    ensures ImportAnchors(t, anchors).None?
    decreases |anchors| - i
  {
    if i < |anchors| {
      NextAnchor(t, anchors, i);
      AnchorsStop(t, anchors, i + 1);
    } else {
      assert anchors[..i] == anchors;
    }
  }

  lemma NextBatch(t: Tables, batches: seq<Batch>, i: nat)
    requires i < |batches|
    ensures AddBatches(t, batches[..i + 1]) == AddBatch(AddBatches(t, batches[..i]), batches[i])
  {
    assert batches[..i + 1][..i] == batches[..i];
  }

  /** An anchor as a node stores it that has checked nothing itself. */
  function Demote(a: Anchor): Anchor {
    a.(status := Unverified)
  }

  predicate NetworksAgree(s: Snapshot) {
    forall a :: a in s.anchors ==>
      Row(BatchIdOf, s.batches, a.batchId).Some? && Row(BatchIdOf, s.batches, a.batchId).value.network == a.network
  }

  /** The links of the first `n` batches, and no others. */
  ghost predicate LinksOf(t: Tables, batches: seq<Batch>) {
    forall k :: k in t.recordBatches <==> exists b :: b in batches && b.batchId == k.1 && k.0 in b.recordIds
  }

  /** The tables hold what the snapshot holds, with every anchor unverified. */
  ghost predicate Restored(s: Snapshot, t: Tables) {
    && (forall r :: r in t.records <==> r in s.records) && Unique(RecordIdOf, t.records)
    && t.batches == s.batches && LinksOf(t, s.batches)
    && t.anchors == Update(Demote, s.anchors)
    && t.blocks == map[] && t.commitments == []
  }

  /** The tables hold exactly these batches, each linked to its records. */
  ghost predicate HoldsBatches(t: Tables, batches: seq<Batch>) {
    t.batches == batches && LinksOf(t, batches)
  }

  lemma BatchAppended(t: Tables, batches: seq<Batch>, i: nat, u: Tables)
    requires i < |batches| && Unique(BatchIdOf, batches)
    requires HoldsBatches(t, batches[..i]) && u == AddBatch(t, batches[i])
    ensures HoldsBatches(u, batches[..i + 1])
  {
    var b := batches[i];
    assert batches[..i + 1] == batches[..i] + [b];
    assert forall j :: 0 <= j < i ==> BatchIdOf(batches[j]) != BatchIdOf(b);
    AddBatchLinks(t, b);
  }

  lemma AnchorAppended(t: Tables, anchors: seq<Anchor>, i: nat)
    requires i < |anchors| && Unique(AnchorKey, anchors) && t.anchors == Update(Demote, anchors[..i])
    requires match Row(BatchIdOf, t.batches, anchors[i].batchId)
             case Some(b) => b.network == anchors[i].network
             case None => false
    ensures ImportAnchor(t, anchors[i]) == Some(t.(anchors := Update(Demote, anchors[..i + 1])))
  {
    var a := anchors[i];
    forall x | x in t.anchors
      ensures AnchorKey(x) != AnchorKey(a)
    {
      var j :| 0 <= j < i && t.anchors[j] == x;
      assert x == Demote(anchors[..i][j]) && AnchorKey(anchors[j]) != AnchorKey(a);
    }
    assert anchors[..i + 1] == anchors[..i] + [a];
    UpdateAppend(Demote, anchors[..i], [a]);
    assert Update(Demote, [a]) == [Demote(a)];
  }

  lemma AnchorRefused(t: Tables, a: Anchor)
    requires match Row(BatchIdOf, t.batches, a.batchId)
             case Some(b) => b.network != a.network
             case None => true
    ensures ImportAnchor(t, a).None?
  {
  }

  ghost predicate NetworkAgrees(t: Tables, a: Anchor) {
    match Row(BatchIdOf, t.batches, a.batchId)
    case Some(b) => b.network == a.network
    case None => false
  }

  lemma AnchorNext(t: Tables, anchors: seq<Anchor>, i: nat)
    requires i < |anchors| && Unique(AnchorKey, anchors) && t.anchors == Update(Demote, anchors[..i])
    ensures ImportAnchor(t, anchors[i]).Some? <==> NetworkAgrees(t, anchors[i])
    ensures NetworkAgrees(t, anchors[i]) ==>
              ImportAnchor(t, anchors[i]).value.anchors == Update(Demote, anchors[..i + 1])
  {
    if NetworkAgrees(t, anchors[i]) {
      AnchorAppended(t, anchors, i);
    } else {
      AnchorRefused(t, anchors[i]);
    }
  }

  /** The tables after the first `i` anchors. */
  ghost predicate AnchorsSoFar(before: Tables, anchors: seq<Anchor>, i: nat, t: Tables)
    requires i <= |anchors|
  {
    && t == before.(anchors := t.anchors)
    && (before.anchors == [] && Unique(AnchorKey, anchors) ==>
          t.anchors == Update(Demote, anchors[..i]) && forall a :: a in anchors[..i] ==> NetworkAgrees(before, a))
  }

  lemma OneMoreAnchor(before: Tables, anchors: seq<Anchor>, i: nat, t: Tables)
    requires i < |anchors| && AnchorsSoFar(before, anchors, i, t)
    ensures ImportAnchor(t, anchors[i]).Some? ==>
              AnchorsSoFar(before, anchors, i + 1, ImportAnchor(t, anchors[i]).value)
    ensures before.anchors == [] && Unique(AnchorKey, anchors) && ImportAnchor(t, anchors[i]).None? ==>
              !NetworkAgrees(before, anchors[i])
  {
    assert anchors[..i + 1] == anchors[..i] + [anchors[i]];
    if before.anchors == [] && Unique(AnchorKey, anchors) {
      AnchorNext(t, anchors, i);
    }
  }

  lemma AnchorsDone(before: Tables, anchors: seq<Anchor>, t: Tables)
    requires AnchorsSoFar(before, anchors, |anchors|, t)
    ensures before.anchors == [] && Unique(AnchorKey, anchors) ==>
              t.anchors == Update(Demote, anchors) && forall a :: a in anchors ==> NetworkAgrees(before, a)
  {
    assert anchors[..|anchors|] == anchors;
  }

  /** The anchor loop of `import_snapshot`; false when it raises. */
  method RestoreAnchors(service: HistoryAnchorService, anchors: seq<Anchor>, ghost from: Tables) returns (ok: bool)
    requires service.Valid() && forall a :: a in anchors ==> ValidAnchorReference(a)
    requires Leads(service.rules, from, service.storage.State())
    modifies service.storage`anchors
    ensures service.Valid() && Leads(service.rules, from, service.storage.State())
    ensures ok <==> ImportAnchors(old(service.storage.State()), anchors).Some?
    ensures ok ==> ImportAnchors(old(service.storage.State()), anchors) == Some(service.storage.State())
    ensures old(service.storage.anchors) == [] && Unique(AnchorKey, anchors) ==>
              && (ok <==> forall a :: a in anchors ==> NetworkAgrees(old(service.storage.State()), a))
              && (ok ==> service.storage.anchors == Update(Demote, anchors))
  {
    ghost var before := service.storage.State();
    for i := 0 to |anchors|
      invariant service.Valid() && Leads(service.rules, from, service.storage.State())
      invariant AnchorsSoFar(before, anchors, i, service.storage.State())
      invariant ImportAnchors(before, anchors[..i]) == Some(service.storage.State())
    {
      var a := anchors[i];
      assert a in anchors;
      ghost var t := service.storage.State();
      OneMoreAnchor(before, anchors, i, t);
      NextAnchor(before, anchors, i);
      var outcome := service.ImportAnchorReference(a);
      if outcome == Rejected || outcome == MissingDependency {
        AnchorsStop(before, anchors, i + 1);
        return false;
      }
      StepLeads(service.rules, from, t, Referenced(a), service.storage.State());
    }
    assert anchors[..|anchors|] == anchors;
    AnchorsDone(before, anchors, service.storage.State());
    ok := true;
  }

  ghost predicate AllHeld(t: Tables, batches: seq<Batch>) {
    forall b :: b in batches ==> HasBatch(t, b)
  }

  /** The tables after the first `i` batches. */
  ghost predicate BatchesSoFar(before: Tables, batches: seq<Batch>, i: nat, t: Tables)
    requires i <= |batches|
  {
    && t == AddBatches(before, batches[..i])
    && OnlyAdds(before, t) && t.records == before.records
    && AllHeld(t, batches[..i])
    && (HoldsBatches(before, []) && Unique(BatchIdOf, batches) ==> HoldsBatches(t, batches[..i]))
  }

  lemma NoBatchSoFar(before: Tables, batches: seq<Batch>)
    ensures BatchesSoFar(before, batches, 0, before)
  {
    assert batches[..0] == [];
  }

  lemma OneMoreBatch(before: Tables, batches: seq<Batch>, i: nat, t: Tables, u: Tables)
    requires i < |batches| && BatchesSoFar(before, batches, i, t) && u == AddBatch(t, batches[i])
    ensures BatchesSoFar(before, batches, i + 1, u)
  {
    NextBatch(before, batches, i);
    AddBatchAdds(t, batches[i]);
    OnlyAddsTwice(before, t, u);
    BatchesKept(t, batches, i, u);
    if HoldsBatches(before, []) && Unique(BatchIdOf, batches) {
      BatchAppended(t, batches, i, u);
    }
  }

  lemma AllBatchesDone(before: Tables, batches: seq<Batch>, t: Tables)
    requires BatchesSoFar(before, batches, |batches|, t)
    ensures t == AddBatches(before, batches) && OnlyAdds(before, t) && AllHeld(t, batches)
    ensures HoldsBatches(before, []) && Unique(BatchIdOf, batches) ==> HoldsBatches(t, batches)
  {
    assert batches[..|batches|] == batches;
  }

  /** The batch loop of `import_snapshot`, which cannot fail once the records are stored. */
  method RestoreBatches(service: HistoryAnchorService, batches: seq<Batch>)
    requires service.Valid() && forall b :: b in batches ==> ValidBatch(service.rules.sha, b)
    requires forall b :: b in batches ==> IdsStored(service.storage.records, b)
    modifies service.storage`batches, service.storage`recordBatches
    ensures service.Valid()
    ensures service.storage.State() == AddBatches(old(service.storage.State()), batches)
    ensures OnlyAdds(old(service.storage.State()), service.storage.State())
    ensures AllHeld(service.storage.State(), batches)
    ensures HoldsBatches(old(service.storage.State()), []) && Unique(BatchIdOf, batches) ==>
              HoldsBatches(service.storage.State(), batches)
  {
    ghost var before := service.storage.State();
    NoBatchSoFar(before, batches);
    for i := 0 to |batches|
      invariant service.Valid() && BatchesSoFar(before, batches, i, service.storage.State())
    {
      assert batches[i] in batches;
      ghost var t := service.storage.State();
      var outcome := service.ImportStoredBatch(batches[i]);
      OneMoreBatch(before, batches, i, t, service.storage.State());
    }
    AllBatchesDone(before, batches, service.storage.State());
  }

  lemma BatchesKept(t: Tables, batches: seq<Batch>, i: nat, u: Tables)
    requires i < |batches| && AllHeld(t, batches[..i]) && u == AddBatch(t, batches[i])
    ensures AllHeld(u, batches[..i + 1])
  {
    assert batches[..i + 1] == batches[..i] + [batches[i]];
    AddBatchLinks(t, batches[i]);
    AddBatchAdds(t, batches[i]);
    forall c | c in batches[..i]
      ensures HasBatch(u, c)
    {
      var d :| d in t.batches && d.batchId == c.batchId;
      assert d in u.batches;
    }
  }

  lemma AgreeingNetworks(s: Snapshot, t: Tables)
    requires t.batches == s.batches
    ensures NetworksAgree(s) <==> forall a :: a in s.anchors ==> NetworkAgrees(t, a)
  {
  }

  /** The record loop of `import_snapshot`. */
  method RestoreRecords(service: HistoryAnchorService, records: seq<Record>) returns (ok: bool)
    requires service.Valid() && Unique(RecordIdOf, records)
    requires forall r :: r in records ==> ValidRecord(service.rules, r)
    modifies service.storage`records
    ensures service.Valid() && Leads(service.rules, old(service.storage.State()), service.storage.State())
    ensures AddsOnly(old(service.storage.records), service.storage.records, records)
    ensures TargetsFirst(service.storage.records, |old(service.storage.records)|, records)
    ensures ok <==> !SomeStuck(old(service.storage.records), records)
    ensures ok ==> forall r :: r in records ==> HasId(service.storage.records, r.id)
    ensures ok && old(service.storage.records) == [] ==> forall r :: r in service.storage.records <==> r in records
  {
    ghost var before := service.storage.State();
    var imported;
    ok, imported := service.ImportRecords(records);
    WellformedWithRecords(service.rules, before, service.storage.records);
    ImportIsGrowth(service.rules, before, service.storage.State());
    NoStepLeads(service.rules, before);
    StepLeads(service.rules, before, before, Grown, service.storage.State());
    if ok && before.records == [] {
      SameRecords(service.storage.records, records);
    }
  }

  /** `import_snapshot` after validation; false when it raises. */
  method RestoreSnapshot(service: HistoryAnchorService, s: Snapshot) returns (ok: bool)
    requires service.Valid() && Closed(service.rules, s)
    modifies service.storage`records, service.storage`batches, service.storage`recordBatches, service.storage`anchors
    ensures service.Valid() && Leads(service.rules, old(service.storage.State()), service.storage.State())
    ensures AddsOnly(old(service.storage.records), service.storage.records, s.records)
    ensures TargetsFirst(service.storage.records, |old(service.storage.records)|, s.records)
    ensures ok ==>
              && !SomeStuck(old(service.storage.records), s.records)
              && (forall r :: r in s.records ==> HasId(service.storage.records, r.id))
              && AllHeld(service.storage.State(), s.batches)
    ensures var all := AddBatches(old(service.storage.State()).(records := service.storage.records), s.batches);
            && (ok <==> !SomeStuck(old(service.storage.records), s.records) && ImportAnchors(all, s.anchors).Some?)
            && (ok ==> ImportAnchors(all, s.anchors) == Some(service.storage.State()))
    ensures old(service.storage.State()) == EMPTY ==>
              && (ok <==> !SomeStuck([], s.records) && NetworksAgree(s))
              && (ok ==> Restored(s, service.storage.State()))
  {
    var storage := service.storage;
    ghost var before := storage.State();
    ok := RestoreRecords(service, s.records);
    if ok {
      ghost var middle := storage.State();
      StoredFromAll(s, storage.records);
      NothingHeld(middle);
      RestoreBatches(service, s.batches);
      ghost var stored := storage.State();
      ImportIsGrowth(service.rules, middle, stored);
      StepLeads(service.rules, before, middle, Grown, stored);
      ok := RestoreAnchors(service, s.anchors, before);
      HeldWithAnchors(stored, s.batches, storage.State());
      if before == EMPTY {
        AgreeingNetworks(s, stored);
        RestoredFully(s, stored, storage.State());
      }
    }
  }

  lemma NothingHeld(t: Tables)
    ensures t.batches == [] && t.recordBatches == map[] ==> HoldsBatches(t, [])
  {
  }

  lemma HeldWithAnchors(t: Tables, batches: seq<Batch>, u: Tables)
    requires AllHeld(t, batches) && u == t.(anchors := u.anchors)
    ensures AllHeld(u, batches)
  {
    forall b | b in batches
      ensures HasBatch(u, b)
    {
      assert HasBatch(t, b);
    }
  }

  lemma RestoredFully(s: Snapshot, t: Tables, u: Tables)
    requires (forall r :: r in t.records <==> r in s.records) && Unique(RecordIdOf, t.records)
    requires HoldsBatches(t, s.batches) && t.blocks == map[] && t.commitments == []
    requires u == t.(anchors := u.anchors)
    ensures u.anchors == Update(Demote, s.anchors) ==> Restored(s, u)
  {
    assert forall k :: k in u.recordBatches <==> k in t.recordBatches;
  }

  /** `import_snapshot`; false when it raises. */
  method ImportSnapshot(service: HistoryAnchorService, s: Snapshot) returns (ok: bool)
    requires service.Valid()
    modifies service.storage`records, service.storage`batches, service.storage`recordBatches, service.storage`anchors
    ensures service.Valid()
    ensures Leads(service.rules, old(service.storage.State()), service.storage.State())
    ensures AddsOnly(old(service.storage.records), service.storage.records, s.records)
    ensures TargetsFirst(service.storage.records, |old(service.storage.records)|, s.records)
    ensures ok ==>
              && ValidSnapshot(service.rules, s) && !SomeStuck(old(service.storage.records), s.records)
              && (forall r :: r in s.records ==> HasId(service.storage.records, r.id))
              && AllHeld(service.storage.State(), s.batches)
    ensures var all := AddBatches(old(service.storage.State()).(records := service.storage.records), s.batches);
            && (ok <==> && ValidSnapshot(service.rules, s) && !SomeStuck(old(service.storage.records), s.records)
                        && ImportAnchors(all, s.anchors).Some?)
            && (ok ==> ImportAnchors(all, s.anchors) == Some(service.storage.State()))
    ensures old(service.storage.State()) == EMPTY ==>
              && (ok <==> ValidSnapshot(service.rules, s) && !SomeStuck([], s.records) && NetworksAgree(s))
              && (ok ==> Restored(s, service.storage.State()))
  {
    if !ValidSnapshot(service.rules, s) {
      NoStepLeads(service.rules, service.storage.State());
      return false;
    }
    ok := RestoreSnapshot(service, s);
  }

  lemma StoredFromAll(s: Snapshot, stored: seq<Record>)
    requires forall r :: r in s.records ==> HasId(stored, r.id)
    requires forall b :: b in s.batches ==> IdsStored(s.records, b)
    ensures forall b :: b in s.batches ==> IdsStored(stored, b)
  {
    forall b, id | b in s.batches && id in b.recordIds
      ensures HasId(stored, id)
    {
      assert IdsStored(s.records, b);
      var r :| r in s.records && r.id == id;
    }
  }

  lemma SameRecords(stored: seq<Record>, all: seq<Record>)
    requires forall i :: 0 <= i < |stored| ==> stored[i] in all
    requires Unique(RecordIdOf, all) && forall r :: r in all ==> HasId(stored, r.id)
    ensures forall r :: r in stored <==> r in all
  {
    forall r | r in all
      ensures r in stored
    {
      var x :| x in stored && x.id == r.id;
      SameRow(RecordIdOf, all, x, r);
    }
  }

  // ---- what a restored node is ----------------------------------------------------

  lemma NoneConfirmed(s: Snapshot, t: Tables)
    requires t.anchors == Update(Demote, s.anchors)
    ensures forall a :: a in t.anchors ==> a.status == Unverified
  {
    forall a | a in t.anchors
      ensures a.status == Unverified
    {
      var i :| 0 <= i < |t.anchors| && t.anchors[i] == a;
    }
  }

  /** Nothing is reported anchored until the node has scanned for itself. */
  lemma RestoredIsUnconfirmed(s: Snapshot, t: Tables)
    requires Restored(s, t)
    ensures AnchoredRecordIds(t) == {}
  {
    NoneConfirmed(s, t);
  }

  /** The restored tables are as ready for a scan as those of a new node. */
  lemma RestoredIsConsistent(rules: Rules, network: string, start: int, s: Snapshot, t: Tables)
    requires Closed(rules, s) && Restored(s, t)
    ensures Consistent(rules, network, start, t, [])
  {
    EmptyIsConsistent(rules, network, start);
    assert Erase(t.commitments) == [];
    RestoredAnchorsMatch(s, t);
    RestoredBatchesValid(rules, s, t);
  }

  lemma RestoredAnchorsMatch(s: Snapshot, t: Tables)
    requires Restored(s, t) && Unique(AnchorKey, s.anchors) && Unique(BatchIdOf, s.batches)
    ensures AnchorsMatch(t)
  {
    NoneConfirmed(s, t);
    UpdateUnique(AnchorKey, Demote, s.anchors);
  }

  lemma RestoredBatchesValid(rules: Rules, s: Snapshot, t: Tables)
    requires Restored(s, t) && forall b :: b in s.batches ==> ValidBatch(rules.sha, b)
    ensures RecordBatchesValid(rules, t)
  {
  }

  /** Exporting one node and restoring into an empty one keeps the set of records, the batches
      in order, which record is in which batch, and the map from outputs to batches. */
  lemma RestoredFromNode(rules: Rules, source: Tables, s: Snapshot, t: Tables)
    requires Wellformed(rules, source)
    requires s.records == source.records && s.batches == source.batches && s.anchors == source.anchors
    requires Restored(s, t)
    ensures forall r :: r in t.records <==> r in source.records
    ensures t.batches == source.batches
    ensures forall a :: a in source.anchors ==>
              exists b :: b in t.anchors && AnchorKey(b) == AnchorKey(a) && b.batchId == a.batchId
    ensures forall b :: b in t.anchors ==>
              exists a :: a in source.anchors && AnchorKey(b) == AnchorKey(a) && b.batchId == a.batchId
  {
    forall a | a in source.anchors
      ensures exists b :: b in t.anchors && AnchorKey(b) == AnchorKey(a) && b.batchId == a.batchId
    {
      var i :| 0 <= i < |source.anchors| && source.anchors[i] == a;
      assert t.anchors[i] in t.anchors;
    }
    forall b | b in t.anchors
      ensures exists a :: a in source.anchors && AnchorKey(b) == AnchorKey(a) && b.batchId == a.batchId
    {
      var i :| 0 <= i < |t.anchors| && t.anchors[i] == b;
      assert source.anchors[i] in source.anchors;
    }
  }
}
