/** The service layer (hap/service.py): submission, import, export and anchoring. */
module Service {
  import opened Bytes
  import opened Hex
  import opened Json
  import opened Batches
  import opened Packages
  import opened PackageSize
  import opened Packing
  import opened Merkle
  import opened Tables
  import Utf8
  import opened AnchorLaws
  import opened NodeStorage

  /** How the index answers one imported item: stored, known, or one of the two errors. */
  datatype Outcome = Accepted | AlreadyExists | Rejected | MissingDependency

  /** `validate_anchor_reference`. */
  predicate ValidAnchorReference(a: Anchor) {
    && IsDigestText(a.txid) && IsDigestText(a.batchId) && IsNetwork(a.network) && a.anchoredAt >= 0
    && (a.blockHash.Some? ==> IsDigestText(a.blockHash.value))
  }

  /** Records and batches may have been added; the rest is as it was. */
  ghost predicate OnlyAdds(t: Tables, u: Tables) {
    && u == t.(records := u.records, batches := u.batches, recordBatches := u.recordBatches)
    && t.records <= u.records
    && t.batches <= u.batches
    && (Unique(RecordIdOf, t.records) ==> Unique(RecordIdOf, u.records))
    && (Unique(BatchIdOf, t.batches) ==> Unique(BatchIdOf, u.batches))
  }

  predicate HasId(records: seq<Record>, id: string) {
    exists r :: r in records && r.id == id
  }

  /** The batch is stored under its id and its records are linked to it. */
  ghost predicate HasBatch(t: Tables, b: Batch) {
    && (exists c :: c in t.batches && c.batchId == b.batchId)
    && (forall id :: id in b.recordIds ==> (id, b.batchId) in t.recordBatches)
  }

  lemma OnlyAddsTwice(t: Tables, u: Tables, v: Tables)
    requires OnlyAdds(t, u) && OnlyAdds(u, v)
    ensures OnlyAdds(t, v)
  {
  }

  predicate IdsStored(records: seq<Record>, b: Batch) {
    forall id :: id in b.recordIds ==> HasId(records, id)
  }

  lemma AddBatchLinks(t: Tables, b: Batch)
    ensures var u := AddBatch(t, b);
            && HasBatch(u, b)
            && (forall k :: k in u.recordBatches <==> k in t.recordBatches || (k.1 == b.batchId && k.0 in b.recordIds))
            && (forall c :: c in u.batches ==> c in t.batches || c == b)
  {
    var u := AddBatch(t, b);
    if Row(BatchIdOf, t.batches, b.batchId).None? {
      assert u.batches[|t.batches|] == b;
    }
    assert b.recordIds[0..] == b.recordIds;
  }

  lemma AddBatchAdds(t: Tables, b: Batch)
    ensures OnlyAdds(t, AddBatch(t, b)) && AddBatch(t, b).records == t.records
  {
  }

  lemma AddBatchValid(rules: Rules, t: Tables, b: Batch)
    requires ValidBatch(rules.sha, b) && RecordBatchesValid(rules, t)
    ensures RecordBatchesValid(rules, AddBatch(t, b))
  {
    AddBatchLinks(t, b);
    var u := AddBatch(t, b);
    forall k | k in u.recordBatches
      ensures exists c: Batch :: ValidBatch(rules.sha, c) && c.batchId == k.1 && k.0 in c.recordIds
    {
      if k in t.recordBatches {
      } else {
        assert b.batchId == k.1 && k.0 in b.recordIds;
      }
    }
  }

  // ---- the tables between calls ---------------------------------------------------

  /** Keys are unique, every record and batch was validated, every link leads to a record. */
  ghost predicate Wellformed(rules: Rules, t: Tables) {
    && Unique(RecordIdOf, t.records) && Unique(BatchIdOf, t.batches) && Unique(AnchorKey, t.anchors)
    && AllValid(rules, t.records)
    && RecordBatchesValid(rules, t)
    && RowsLinked(t)
  }

  ghost predicate AnchorLinked(t: Tables, a: Anchor) {
    exists b :: b in t.batches && b.batchId == a.batchId
  }

  /** What a row refers to is stored: the records of a batch, the batch of an anchor. */
  ghost predicate RowsLinked(t: Tables) {
    && (forall k :: k in t.recordBatches ==> HasId(t.records, k.0))
    && (forall b :: b in t.batches ==> IdsStored(t.records, b))
    && (forall a :: a in t.anchors ==> AnchorLinked(t, a))
  }

  lemma WellformedWithRecords(rules: Rules, t: Tables, records: seq<Record>)
    requires Wellformed(rules, t) && t.records <= records
    requires Unique(RecordIdOf, records) && AllValid(rules, records)
    ensures Wellformed(rules, t.(records := records))
  {
    LinkedWithRecords(t, records);
  }

  lemma WellformedWithRecord(rules: Rules, t: Tables, r: Record)
    requires Wellformed(rules, t) && ValidRecord(rules, r) && !HasId(t.records, r.id)
    ensures Wellformed(rules, t.(records := t.records + [r]))
  {
    forall i | 0 <= i < |t.records|
      ensures RecordIdOf(t.records[i]) != RecordIdOf(r)
    {
      assert t.records[i] in t.records;
    }
    WellformedWithRecords(rules, t, t.records + [r]);
  }

  lemma RecordStaysValid(rules: Rules, t: Tables, r: Record, u: Tables)
    requires ValidRecord(rules, r) && !HasId(t.records, r.id) && u == t.(records := t.records + [r])
    ensures Wellformed(rules, t) ==> Wellformed(rules, u)
  {
    if Wellformed(rules, t) {
      WellformedWithRecord(rules, t, r);
    }
  }

  lemma LinkedWithRecords(t: Tables, records: seq<Record>)
    requires RowsLinked(t) && t.records <= records
    ensures RowsLinked(t.(records := records))
  {
    var u := t.(records := records);
    forall k | k in t.recordBatches
      ensures HasId(records, k.0)
    {
      HasIdLonger(t.records, records, k.0);
    }
    forall b, id | b in t.batches && id in b.recordIds
      ensures HasId(records, id)
    {
      assert IdsStored(t.records, b);
      HasIdLonger(t.records, records, id);
    }
    forall a | a in t.anchors
      ensures AnchorLinked(u, a)
    {
      assert AnchorLinked(t, a);
    }
  }

  lemma WellformedWithBatch(rules: Rules, t: Tables, b: Batch)
    requires Wellformed(rules, t) && ValidBatch(rules.sha, b) && IdsStored(t.records, b)
    ensures Wellformed(rules, AddBatch(t, b))
  {
    AddBatchAdds(t, b);
    AddBatchValid(rules, t, b);
    LinkedWithBatch(t, b);
  }

  lemma LinkedWithBatch(t: Tables, b: Batch)
    requires RowsLinked(t) && IdsStored(t.records, b)
    ensures RowsLinked(AddBatch(t, b))
  {
    var u := AddBatch(t, b);
    AddBatchLinks(t, b);
    AddBatchAdds(t, b);
    forall a | a in u.anchors
      ensures AnchorLinked(u, a)
    {
      assert AnchorLinked(t, a);
      var c :| c in t.batches && c.batchId == a.batchId;
      assert c in u.batches;
    }
  }

  lemma BatchAdded(t: Tables, b: Batch, u: Tables)
    requires u == AddBatch(t, b)
    ensures OnlyAdds(t, u) && HasBatch(u, b)
  {
    AddBatchAdds(t, b);
    AddBatchLinks(t, b);
  }

  lemma WellformedWithAnchor(rules: Rules, t: Tables, a: Anchor)
    requires Wellformed(rules, t) && AnchorLinked(t, a)
    ensures Wellformed(rules, t.(anchors := AddAnchor(t.anchors, a)))
  {
    UpsertRows(AnchorKey, t.anchors, a);
    LinkedWithAnchor(t, a);
  }

  lemma LinkedWithAnchor(t: Tables, a: Anchor)
    requires RowsLinked(t) && AnchorLinked(t, a) && Unique(AnchorKey, t.anchors)
    ensures RowsLinked(t.(anchors := AddAnchor(t.anchors, a)))
  {
    var u := t.(anchors := AddAnchor(t.anchors, a));
    UpsertRows(AnchorKey, t.anchors, a);
    forall x | x in u.anchors
      ensures AnchorLinked(u, x)
    {
      assert AnchorLinked(t, x);
    }
  }

  /** Blocks and commitments play no part in it. */
  lemma WellformedAside(rules: Rules, t: Tables, u: Tables)
    requires Wellformed(rules, t) && u == t.(commitments := u.commitments, blocks := u.blocks)
    ensures Wellformed(rules, u)
  {
    LinkedAside(t, u);
  }

  lemma LinkedAside(t: Tables, u: Tables)
    requires RowsLinked(t) && u == t.(commitments := u.commitments, blocks := u.blocks)
    ensures RowsLinked(u)
  {
    assert forall a :: a in u.anchors ==> AnchorLinked(t, a);
  }

  lemma RegisteredWellformed(rules: Rules, t: Tables, batchId: string, point: Outpoint)
    requires Wellformed(rules, t) && Register(t, batchId, point).Some?
    ensures Wellformed(rules, Register(t, batchId, point).value)
  {
    var a := AnchorFor(Matches(t, batchId, point)[0]);
    RegisteredLinked(t, batchId, point);
    WellformedWithAnchor(rules, t, a);
    WellformedAside(rules, t.(anchors := AddAnchor(t.anchors, a)), Register(t, batchId, point).value);
  }

  lemma RegisteredLinked(t: Tables, batchId: string, point: Outpoint)
    requires Register(t, batchId, point).Some?
    ensures Matches(t, batchId, point) != [] && AnchorLinked(t, AnchorFor(Matches(t, batchId, point)[0]))
    ensures AnchorKey(AnchorFor(Matches(t, batchId, point)[0])) == point
    ensures AnchorFor(Matches(t, batchId, point)[0]).batchId == batchId
  {
    var matches := Matches(t, batchId, point);
    assert matches[0] in matches;
    assert matches[0] in Where(HasBatchId(batchId), t.commitments);
    assert Row(BatchIdOf, t.batches, batchId).value in t.batches;
  }

  // ---- batching -------------------------------------------------------------------

  function Limited(rows: seq<Record>, limit: nat): (r: seq<Record>)
    ensures r <= rows && |r| <= limit
    ensures r == rows || |r| == limit
  {
    if |rows| <= limit then rows else rows[..limit]
  }

  function NotListed(ids: seq<string>): Record -> bool {
    (r: Record) => r.id !in ids
  }

  /** The package can be made and its canonical bytes are within the limit. */
  predicate Packs(rules: Rules, b: Batch, records: seq<Record>, maxBytes: int) {
    match CreatePackage(rules, b, records)
    case Some(p) => CanonicalBytes(PackageJson(p)).Some? && |CanonicalBytes(PackageJson(p)).value| <= maxBytes
    case None => false
  }

  /** The batch takes the greedy choice of the unbatched records, and its package fits. */
  ghost predicate IsGreedyBatch(rules: Rules, t: Tables, limit: nat, maxBytes: int, b: Batch) {
    var candidates, k := Limited(Unbatched(t), limit), |b.recordIds|;
    && 0 < k <= |candidates| && GreedyChoice(candidates, maxBytes, k)
    && BatchOf(rules, b, candidates[..k]) && Packs(rules, b, candidates[..k], maxBytes)
  }

  lemma BatchSize(rules: Rules, b: Batch, records: seq<Record>)
    requires BatchOf(rules, b, records)
    ensures |b.recordIds| == |records|
  {
  }

  lemma GreedyBatchOf(rules: Rules, t: Tables, limit: nat, maxBytes: int, b: Batch, candidates: seq<Record>, k: nat)
    requires candidates == Limited(Unbatched(t), limit) && k == |b.recordIds| && 0 < k <= |candidates|
    requires GreedyChoice(candidates, maxBytes, k)
    requires BatchOf(rules, b, candidates[..k]) && Packs(rules, b, candidates[..k], maxBytes)
    ensures IsGreedyBatch(rules, t, limit, maxBytes, b)
  {
  }

  /** A batch can be made: the greedy choice is not empty, not longer than a batch may be, and
      the network and the time are good. */
  ghost predicate Fits(candidates: seq<Record>, maxBytes: int, network: string, now: int) {
    && IsNetwork(network) && 0 <= now <= MAX_SAFE
    && exists k :: 0 < k <= MAX_BATCH_RECORDS && GreedyChoice(candidates, maxBytes, k)
  }

  lemma ChosenFits(candidates: seq<Record>, maxBytes: int, network: string, now: int, k: nat)
    requires 0 < k && GreedyChoice(candidates, maxBytes, k)
    ensures Fits(candidates, maxBytes, network, now) <==>
            k <= MAX_BATCH_RECORDS && IsNetwork(network) && 0 <= now <= MAX_SAFE
  {
    if j :| 0 < j <= MAX_BATCH_RECORDS && GreedyChoice(candidates, maxBytes, j) {
      GreedyUnique(candidates, maxBytes, j, k);
    }
  }

  lemma NoneFits(candidates: seq<Record>, maxBytes: int, network: string, now: int)
    requires candidates != [] && Estimate(candidates[..1]) > maxBytes
    ensures !Fits(candidates, maxBytes, network, now)
  {
    if k :| 0 < k <= MAX_BATCH_RECORDS && GreedyChoice(candidates, maxBytes, k) {
      GreedyUnique(candidates, maxBytes, 0, k);
    }
  }

  /** Batching a prefix of the unbatched records leaves exactly the rest, in order. */
  lemma UnbatchedAfter(t: Tables, b: Batch, k: nat)
    requires Unique(RecordIdOf, t.records) && k <= |Unbatched(t)|
    requires forall id :: id in b.recordIds <==> id in Ids(Unbatched(t)[..k])
    ensures Unbatched(AddBatch(t, b)) == Unbatched(t)[k..]
  {
    var before := Unbatched(t);
    StillUnbatched(t, b);
    WhereUnique(RecordIdOf, HasNoBatch(t.recordBatches), t.records);
    assert before == before[..k] + before[k..];
    TakenAndLeft(before[..k], before[k..], b.recordIds);
  }

  /** A record is unbatched afterwards when it was before and the batch does not list it. */
  lemma StillUnbatched(t: Tables, b: Batch)
    ensures Unbatched(AddBatch(t, b)) == Where(NotListed(b.recordIds), Unbatched(t))
  {
    var u := AddBatch(t, b);
    AddBatchLinks(t, b);
    AddBatchAdds(t, b);
    var was, left, both := HasNoBatch(t.recordBatches), NotListed(b.recordIds), HasNoBatch(u.recordBatches);
    forall r: Record
      ensures both(r) <==> was(r) && left(r)
    {
      if r.id in b.recordIds {
        assert (r.id, b.batchId) in u.recordBatches;
      }
    }
    WhereTwice(was, left, both, t.records);
  }

  lemma ListedIds(rows: seq<Record>, r: Record)
    ensures r in rows ==> r.id in Ids(rows)
    ensures r.id in Ids(rows) ==> exists x :: x in rows && x.id == r.id
  {
    if r in rows {
      var i :| 0 <= i < |rows| && rows[i] == r;
      assert Ids(rows)[i] == r.id;
    }
    if r.id in Ids(rows) {
      var i :| 0 <= i < |rows| && Ids(rows)[i] == r.id;
      assert rows[i] in rows;
    }
  }

  lemma TakenAndLeft(taken: seq<Record>, rest: seq<Record>, ids: seq<string>)
    requires Unique(RecordIdOf, taken + rest)
    requires forall id :: id in ids <==> id in Ids(taken)
    ensures Where(NotListed(ids), taken + rest) == rest
  {
    WhereAppend(NotListed(ids), taken, rest);
    forall r | r in taken
      ensures !NotListed(ids)(r)
    {
      ListedIds(taken, r);
    }
    WhereNone(NotListed(ids), taken);
    forall r | r in rest
      ensures NotListed(ids)(r)
    {
      ListedIds(taken, r);
      if x :| x in taken && x.id == r.id {
        DisjointParts(taken, rest, x, r);
      }
    }
    WhereAll(NotListed(ids), rest);
  }

  lemma DisjointParts(a: seq<Record>, b: seq<Record>, x: Record, y: Record)
    requires Unique(RecordIdOf, a + b) && x in a && y in b
    ensures x.id != y.id
  {
    var i :| 0 <= i < |a| && a[i] == x;
    var j :| 0 <= j < |b| && b[j] == y;
    assert (a + b)[i] == x && (a + b)[|a| + j] == y;
    assert RecordIdOf((a + b)[i]) != RecordIdOf((a + b)[|a| + j]);
  }

  // ---- the dependency loop --------------------------------------------------------

  /** Records that wait for each other: none of their targets is stored, all are among them. */
  ghost predicate Stuck(stored: seq<Record>, waiting: seq<Record>) {
    && waiting != []
    && forall r :: r in waiting ==> r.target.Some? && !HasId(stored, r.target.value) && HasId(waiting, r.target.value)
  }

  /** Some of these records wait for each other. */
  ghost predicate SomeStuck(stored: seq<Record>, all: seq<Record>) {
    exists waiting :: (forall r :: r in waiting ==> r in all) && Stuck(stored, waiting)
  }

  /** Every record stored from position `from` on came after its target, if that is among `all`. */
  ghost predicate TargetsFirst(stored: seq<Record>, from: nat, all: seq<Record>) {
    forall i :: from <= i < |stored| && stored[i].target.Some? && HasId(all, stored[i].target.value) ==>
      HasId(stored[..i], stored[i].target.value)
  }

  /** Nothing among `all` can wait forever for itself. */
  ghost predicate Acyclic(rank: string -> nat, all: seq<Record>) {
    forall r :: r in all && r.target.Some? && HasId(all, r.target.value) ==> rank(r.target.value) < rank(r.id)
  }

  lemma {:induction false} SmallestRank(rank: string -> nat, rows: seq<Record>) returns (r: Record)
    requires rows != []
    ensures r in rows && forall s :: s in rows ==> rank(r.id) <= rank(s.id)
  {
    if |rows| == 1 {
      r := rows[0];
    } else {
      var rest := SmallestRank(rank, rows[1..]);
      r := if rank(rows[0].id) < rank(rest.id) then rows[0] else rest;
    }
  }

  lemma AcyclicNeverSticks(rank: string -> nat, all: seq<Record>, stored: seq<Record>, waiting: seq<Record>)
    requires Acyclic(rank, all) && forall r :: r in waiting ==> r in all
    ensures !Stuck(stored, waiting)
  {
    if waiting != [] {
      var r := SmallestRank(rank, waiting);
      SmallestIsFree(rank, all, waiting, r);
    }
  }

  lemma SmallestIsFree(rank: string -> nat, all: seq<Record>, waiting: seq<Record>, r: Record)
    requires Acyclic(rank, all) && (forall s :: s in waiting ==> s in all)
    requires r in waiting && forall s :: s in waiting ==> rank(r.id) <= rank(s.id)
    ensures r.target.Some? ==> !HasId(waiting, r.target.value)
  {
    forall s | s in waiting
      ensures r.target != Some(s.id)
    {
      assert HasId(all, s.id);
    }
  }

  lemma AcyclicImports(rank: string -> nat, all: seq<Record>, stored: seq<Record>)
    requires Acyclic(rank, all)
    ensures !SomeStuck(stored, all)
  {
    forall waiting | forall r :: r in waiting ==> r in all
      ensures !Stuck(stored, waiting)
    {
      AcyclicNeverSticks(rank, all, stored, waiting);
    }
  }

  lemma WaitsFor(before: seq<Record>, all: seq<Record>, waiting: seq<Record>, r: Record) returns (w: Record)
    requires Stuck(before, waiting) && r in waiting && forall x :: x in waiting ==> x in all
    ensures r.target.Some? && !HasId(before, r.target.value)
    ensures w in waiting && w in all && w.id == r.target.value && HasId(all, w.id)
  {
    w :| w in waiting && w.id == r.target.value;
  }

  lemma StoredEarlier(after: seq<Record>, from: nat, all: seq<Record>, i: nat) returns (j: nat)
    requires TargetsFirst(after, from, all) && from <= i < |after|
    requires after[i].target.Some? && HasId(all, after[i].target.value)
    ensures j < i && after[j].id == after[i].target.value
  {
    var s :| s in after[..i] && s.id == after[i].target.value;
    j :| 0 <= j < i && after[j] == s;
  }

  lemma NotAmong(before: seq<Record>, after: seq<Record>, id: string, i: nat)
    requires before <= after && !HasId(before, id) && i < |after| && after[i].id == id
    ensures i >= |before|
  {
    assert forall j :: 0 <= j < |before| ==> before[j] in before;
  }

  /** In an ordered store no record can hold the target of a waiting one. */
  lemma {:induction false} TargetNotStoredAt(
    before: seq<Record>, after: seq<Record>, all: seq<Record>, waiting: seq<Record>, r: Record, i: nat)
    requires before <= after && TargetsFirst(after, |before|, all) && Unique(RecordIdOf, all)
    requires forall j :: |before| <= j < |after| ==> after[j] in all
    requires (forall w :: w in waiting ==> w in all) && Stuck(before, waiting) && r in waiting
    requires i < |after| && after[i].id == r.target.value
    ensures false
    decreases i
  {
    var w := WaitsFor(before, all, waiting, r);
    NotAmong(before, after, w.id, i);
    SameRow(RecordIdOf, all, w, after[i]);
    var x := WaitsFor(before, all, waiting, w);
    var j := StoredEarlier(after, |before|, all, i);
    TargetNotStoredAt(before, after, all, waiting, w, j);
  }

  /** Success leaves no set of records that waited for each other. */
  lemma OrderedIsNotStuck(before: seq<Record>, after: seq<Record>, all: seq<Record>, waiting: seq<Record>)
    requires before <= after && TargetsFirst(after, |before|, all) && Unique(RecordIdOf, all)
    requires forall j :: |before| <= j < |after| ==> after[j] in all
    requires forall r :: r in all ==> HasId(after, r.id)
    requires forall w :: w in waiting ==> w in all
    ensures !Stuck(before, waiting)
  {
    if Stuck(before, waiting) {
      var w := WaitsFor(before, all, waiting, waiting[0]);
      var s :| s in after && s.id == w.id;
      var i :| 0 <= i < |after| && after[i] == s;
      TargetNotStoredAt(before, after, all, waiting, waiting[0], i);
    }
  }

  lemma NothingStuck(before: seq<Record>, after: seq<Record>, all: seq<Record>)
    requires before <= after && TargetsFirst(after, |before|, all) && Unique(RecordIdOf, all)
    requires forall j :: |before| <= j < |after| ==> after[j] in all
    requires forall r :: r in all ==> HasId(after, r.id)
    ensures !SomeStuck(before, all)
  {
    if SomeStuck(before, all) {
      var waiting :| (forall r :: r in waiting ==> r in all) && Stuck(before, waiting);
      OrderedIsNotStuck(before, after, all, waiting);
    }
  }

  function Without(rows: seq<Record>, id: string): (r: seq<Record>)
    ensures |r| <= |rows|
    ensures forall x :: x in r <==> x in rows && x.id != id
    ensures (exists x :: x in rows && x.id == id) ==> |r| < |rows|
    ensures Unique(RecordIdOf, rows) ==> Unique(RecordIdOf, r)
  {
    if rows == [] then []
    else if rows[0].id == id then Without(rows[1..], id)
    else [rows[0]] + Without(rows[1..], id)
  }

  /** The test of the dependency loop: the target is neither stored nor past waiting. */
  predicate Blocked(stored: seq<Record>, pending: seq<Record>, r: Record) {
    r.target.Some? && !HasId(stored, r.target.value) && HasId(pending, r.target.value)
  }

  /** What the dependency loop keeps: whatever no longer waits is stored, targets first. */
  ghost predicate Progress(before: seq<Record>, now: seq<Record>, all: seq<Record>, pending: seq<Record>) {
    && before <= now
    && Unique(RecordIdOf, pending)
    && (forall r :: r in pending ==> r in all)
    && (forall r :: r in all ==> r in pending || HasId(now, r.id))
    && (forall i :: |before| <= i < |now| ==> now[i] in all)
    && (Unique(RecordIdOf, before) ==> Unique(RecordIdOf, now))
    && TargetsFirst(now, |before|, all)
  }

  /** Records were added at the end, all of them among these. */
  ghost predicate AddsOnly(before: seq<Record>, after: seq<Record>, all: seq<Record>) {
    before <= after && forall i :: |before| <= i < |after| ==> after[i] in all
  }

  lemma HasIdLonger(a: seq<Record>, b: seq<Record>, id: string)
    requires a <= b && HasId(a, id)
    ensures HasId(b, id)
  {
    var r :| r in a && r.id == id;
    assert r in b;
  }

  lemma TargetsFirstNext(before: seq<Record>, now: seq<Record>, all: seq<Record>, r: Record)
    requires before <= now && TargetsFirst(now, |before|, all)
    requires r.target.Some? && HasId(all, r.target.value) ==> HasId(now, r.target.value)
    ensures TargetsFirst(now + [r], |before|, all)
  {
    var after := now + [r];
    forall i | |before| <= i < |after| && after[i].target.Some? && HasId(all, after[i].target.value)
      ensures HasId(after[..i], after[i].target.value)
    {
      assert after[..i] == now[..i];
      if i == |now| {
        assert now[..i] == now;
      }
    }
  }

  /** Storing a record that is not blocked, or finding it stored, is progress. */
  lemma SubmitProgress(
    before: seq<Record>, now: seq<Record>, all: seq<Record>, pending: seq<Record>, r: Record, added: bool)
    requires Progress(before, now, all, pending) && r in pending && !Blocked(now, pending, r)
    requires added <==> !HasId(now, r.id)
    ensures Progress(before, if added then now + [r] else now, all, Without(pending, r.id))
  {
    var after := if added then now + [r] else now;
    TargetIsStored(now, all, pending, r);
    TargetsFirstNext(before, now, all, r);
    assert added ==> after[|now|] == r;
    StillPending(now, after, all, pending, r);
  }

  lemma TargetIsStored(now: seq<Record>, all: seq<Record>, pending: seq<Record>, r: Record)
    requires !Blocked(now, pending, r) && forall s :: s in all ==> s in pending || HasId(now, s.id)
    ensures r.target.Some? && HasId(all, r.target.value) ==> HasId(now, r.target.value)
  {
    if r.target.Some? && HasId(all, r.target.value) {
      var s :| s in all && s.id == r.target.value;
      assert s in pending || HasId(now, s.id);
    }
  }

  lemma StillPending(now: seq<Record>, after: seq<Record>, all: seq<Record>, pending: seq<Record>, r: Record)
    requires now <= after && HasId(after, r.id) && forall s :: s in all ==> s in pending || HasId(now, s.id)
    ensures forall s :: s in all ==> s in Without(pending, r.id) || HasId(after, s.id)
  {
    forall s | s in all
      ensures s in Without(pending, r.id) || HasId(after, s.id)
    {
      if s.id != r.id && HasId(now, s.id) {
        HasIdLonger(now, after, s.id);
      }
    }
  }

  /** Removing one item leaves the later ones waiting. */
  lemma OthersWait(items: seq<Record>, pending: seq<Record>, i: nat)
    requires Unique(RecordIdOf, items) && i < |items|
    requires forall j :: i <= j < |items| ==> items[j] in pending
    ensures forall j :: i < j < |items| ==> items[j] in Without(pending, items[i].id)
    ensures |Without(pending, items[i].id)| < |pending|
  {
    assert items[i] in pending && items[i].id == items[i].id;
    forall j | i < j < |items|
      ensures items[j] in Without(pending, items[i].id)
    {
      assert RecordIdOf(items[j]) != RecordIdOf(items[i]);
    }
  }

  lemma StuckFromStart(before: seq<Record>, now: seq<Record>, pending: seq<Record>)
    requires before <= now && pending != []
    requires forall j :: 0 <= j < |pending| ==> Blocked(now, pending, pending[j])
    ensures Stuck(before, pending)
  {
    forall r | r in pending
      ensures r.target.Some? && !HasId(before, r.target.value) && HasId(pending, r.target.value)
    {
      if HasId(before, r.target.value) {
        HasIdLonger(before, now, r.target.value);
      }
    }
  }

  /** One round of the dependency loop, at its `i`-th item. */
  ghost predicate Round(
    before: seq<Record>, now: seq<Record>, all: seq<Record>, items: seq<Record>, i: nat, pending: seq<Record>,
    progressed: bool)
  {
    && Progress(before, now, all, pending)
    && Unique(RecordIdOf, items) && i <= |items|
    && (if progressed then |pending| < |items| else pending == items)
    && (forall j :: i <= j < |items| ==> items[j] in pending)
    && (!progressed ==> forall j :: 0 <= j < i ==> Blocked(now, pending, items[j]))
  }

  lemma RoundSkips(
    before: seq<Record>, now: seq<Record>, all: seq<Record>, items: seq<Record>, i: nat, pending: seq<Record>,
    progressed: bool)
    requires Round(before, now, all, items, i, pending, progressed) && i < |items| && Blocked(now, pending, items[i])
    ensures Round(before, now, all, items, i + 1, pending, progressed)
  {
  }

  lemma RoundSubmits(
    before: seq<Record>, now: seq<Record>, all: seq<Record>, items: seq<Record>, i: nat, pending: seq<Record>,
    progressed: bool, added: bool, after: seq<Record>)
    requires Round(before, now, all, items, i, pending, progressed) && i < |items| && !Blocked(now, pending, items[i])
    requires added <==> !HasId(now, items[i].id)
    requires after == if added then now + [items[i]] else now
    ensures Round(before, after, all, items, i + 1, Without(pending, items[i].id), true)
  {
    SubmitProgress(before, now, all, pending, items[i], added);
    OthersWait(items, pending, i);
  }

  class HistoryAnchorService {
    const storage: Storage
    const rules: Rules

    constructor (storage: Storage, rules: Rules)
      ensures this.storage == storage && this.rules == rules
    {
      this.storage, this.rules := storage, rules;
    }

    /** `submit_record`; the local policy, if there is one, says which records it lets pass. */
    method SubmitRecord(r: Record, requireLocalTarget: bool, policy: Option<Record -> bool>) returns (outcome: Outcome)
      modifies storage`records
      ensures outcome == AlreadyExists <==>
                ValidRecord(rules, r) && (policy.Some? ==> policy.value(r)) && HasId(old(storage.records), r.id)
      ensures outcome == Accepted <==>
                && ValidRecord(rules, r) && (policy.Some? ==> policy.value(r)) && !HasId(old(storage.records), r.id)
                && (requireLocalTarget && r.target.Some? ==> HasId(old(storage.records), r.target.value))
      ensures outcome != MissingDependency
      ensures storage.records == old(storage.records) + (if outcome == Accepted then [r] else [])
      ensures old(Valid()) ==> Valid()
    {
      if !ValidRecord(rules, r) {
        return Rejected;
      }
      if policy.Some? && !policy.value(r) {
        return Rejected;
      }
      if storage.HasRecord(r.id) {
        return AlreadyExists;
      }
      if requireLocalTarget && r.target.Some? && !storage.HasRecord(r.target.value) {
        return Rejected;
      }
      ghost var t := storage.State();
      var _ := storage.AddRecord(r);
      outcome := Accepted;
      RecordStaysValid(rules, t, r, storage.State());
    }

    method ImportBatch(b: Batch) returns (outcome: Outcome)
      modifies storage`batches, storage`recordBatches
      ensures outcome == Rejected <==> !ValidBatch(rules.sha, b)
      ensures outcome == MissingDependency <==>
                ValidBatch(rules.sha, b) && exists id :: id in b.recordIds && !old(storage.HasRecord(id))
      ensures outcome == Rejected || outcome == MissingDependency ==> storage.State() == old(storage.State())
      ensures outcome == Accepted || outcome == AlreadyExists ==>
                && storage.State() == AddBatch(old(storage.State()), b)
                && (outcome == Accepted <==> old(storage.FindBatch(b.batchId)).None?)
      ensures old(Valid()) ==> Valid()
    {
      if !ValidBatch(rules.sha, b) {
        return Rejected;
      }
      if exists id :: id in b.recordIds && !storage.HasRecord(id) {
        return MissingDependency;
      }
      if Valid() {
        WellformedWithBatch(rules, storage.State(), b);
      }
      var added := storage.AddBatch(b);
      outcome := if added then Accepted else AlreadyExists;
    }

    /** The loop over `pending` that packages and snapshots share. */
    method ImportRecords(all: seq<Record>) returns (ok: bool, imported: nat)
      requires Unique(RecordIdOf, all) && forall r :: r in all ==> ValidRecord(rules, r)
      modifies storage`records
      ensures old(storage.records) <= storage.records && imported == |storage.records| - |old(storage.records)|
      ensures Unique(RecordIdOf, old(storage.records)) ==> Unique(RecordIdOf, storage.records)
      ensures forall i :: |old(storage.records)| <= i < |storage.records| ==> storage.records[i] in all
      ensures TargetsFirst(storage.records, |old(storage.records)|, all)
      ensures ok ==> forall r :: r in all ==> HasId(storage.records, r.id)
      ensures ok <==> !SomeStuck(old(storage.records), all)
    {
      var pending := all;
      imported := 0;
      while pending != []
        invariant Progress(old(storage.records), storage.records, all, pending)
        invariant imported == |storage.records| - |old(storage.records)|
        decreases |pending|
      {
        var progressed := false;
        var items := pending;
        for i := 0 to |items|
          invariant Round(old(storage.records), storage.records, all, items, i, pending, progressed)
          invariant imported == |storage.records| - |old(storage.records)|
        {
          var r := items[i];
          if Blocked(storage.records, pending, r) {
            RoundSkips(old(storage.records), storage.records, all, items, i, pending, progressed);
            continue;
          }
          ghost var before := storage.records;
          var outcome := SubmitRecord(r, false, None);
          RoundSubmits(old(storage.records), before, all, items, i, pending, progressed, outcome == Accepted,
                       storage.records);
          imported := imported + (if outcome == Accepted then 1 else 0);
          pending := Without(pending, r.id);
          progressed := true;
        }
        if !progressed {
          StuckFromStart(old(storage.records), storage.records, pending);
          return false, imported;
        }
      }
      ok := true;
      NothingStuck(old(storage.records), storage.records, all);
    }

    ghost predicate Valid()
      reads storage`records, storage`batches, storage`recordBatches
      reads storage`anchors, storage`blocks, storage`commitments
    {
      Wellformed(rules, storage.State())
    }

    /** Importing a batch whose records are all stored. */
    method ImportStoredBatch(b: Batch) returns (outcome: Outcome)
      requires Valid() && ValidBatch(rules.sha, b) && IdsStored(storage.records, b)
      modifies storage`batches, storage`recordBatches
      ensures Valid()
      ensures storage.State() == AddBatch(old(storage.State()), b)
      ensures outcome == if old(storage.FindBatch(b.batchId)).None? then Accepted else AlreadyExists
    {
      outcome := ImportBatch(b);
    }

    /** The record loop of `import_package`. */
    method ImportPackageRecords(p: Package) returns (ok: bool, imported: nat)
      requires Valid() && ValidPackage(rules, p)
      modifies storage`records
      ensures Valid()
      ensures ok <==> !SomeStuck(old(storage.records), p.records)
      ensures imported == |storage.records| - |old(storage.records)|
      ensures OnlyAdds(old(storage.State()), storage.State())
      ensures AddsOnly(old(storage.records), storage.records, p.records)
      ensures ok ==>
                && (forall r :: r in p.records ==> HasId(storage.records, r.id))
                && IdsStored(storage.records, p.batch)
                && TargetsFirst(storage.records, |old(storage.records)|, p.records)
    {
      ghost var before := storage.State();
      PackageRecordsUnique(rules, p);
      ok, imported := ImportRecords(p.records);
      WellformedWithRecords(rules, before, storage.records);
      if ok {
        PackageIdsStored(p, storage.records);
      }
    }

    /** `import_package`. */
    method ImportPackage(p: Package) returns (outcome: Outcome, imported: nat)
      requires Valid()
      modifies storage`records, storage`batches, storage`recordBatches
      ensures Valid()
      ensures outcome == Rejected <==> !ValidPackage(rules, p) || SomeStuck(old(storage.records), p.records)
      ensures outcome != MissingDependency
      ensures imported == |storage.records| - |old(storage.records)|
      ensures OnlyAdds(old(storage.State()), storage.State())
      ensures AddsOnly(old(storage.records), storage.records, p.records)
      ensures var t := old(storage.State()).(records := storage.records);
              storage.State() == if outcome == Rejected then t else AddBatch(t, p.batch)
      ensures outcome != Rejected ==>
                && (outcome == Accepted <==> old(storage.FindBatch(p.batch.batchId)).None?)
                && (forall r :: r in p.records ==> HasId(storage.records, r.id))
                && HasBatch(storage.State(), p.batch)
                && TargetsFirst(storage.records, |old(storage.records)|, p.records)
    {
      imported := 0;
      if !ValidPackage(rules, p) {
        return Rejected, 0;
      }
      ghost var t := storage.State();
      var ok;
      ok, imported := ImportPackageRecords(p);
      ghost var u := storage.State();
      assert u == t.(records := storage.records);
      if !ok {
        return Rejected, imported;
      }
      outcome := ImportStoredBatch(p.batch);
      BatchAdded(u, p.batch, storage.State());
      OnlyAddsTwice(t, u, storage.State());
    }

    /** The greedy loop of `create_batch`; nothing when not even the first record fits. */
    method ChooseRecords(candidates: seq<Record>, maxBytes: int) returns (chosen: Option<seq<Record>>)
      requires candidates != []
      ensures chosen.Some? <==> Estimate(candidates[..1]) <= maxBytes
      ensures chosen.Some? ==>
                && 0 < |chosen.value| && chosen.value <= candidates
                && GreedyChoice(candidates, maxBytes, |chosen.value|)
    {
      var records: seq<Record> := [];
      var estimated := BASE_ESTIMATE;
      EstimateOfNone();
      for i := 0 to |candidates|
        invariant records == candidates[..i] && estimated == Estimate(records)
        invariant i > 0 ==> estimated <= maxBytes && Estimate(candidates[..1]) <= maxBytes
      {
        var r := candidates[i];
        var recordBytes := |Utf8.Encode(CanonicalText(RecordJson(r)))| + RECORD_OVERHEAD;
        EstimateNext(records, r);
        assert candidates[..i + 1] == records + [r];
        if i > 0 && estimated + recordBytes > maxBytes {
          return Some(records);
        }
        if i == 0 && estimated + recordBytes > maxBytes {
          return None;
        }
        records := records + [r];
        estimated := estimated + recordBytes;
      }
      assert records == candidates;
      assert candidates[..|candidates|] == candidates;
      chosen := Some(records);
    }

    /** `create_batch`, with the clock as a parameter. */
    method CreateBatch(network: string, limit: nat, maxBytes: int, now: int) returns (batch: Option<Batch>)
      requires Valid()
      modifies storage`batches, storage`recordBatches
      ensures Valid()
      ensures batch.None? ==> storage.State() == old(storage.State())
      ensures batch.Some? ==>
                && IsGreedyBatch(rules, old(storage.State()), limit, maxBytes, batch.value)
                && storage.State() == AddBatch(old(storage.State()), batch.value)
                && Unbatched(storage.State()) == Unbatched(old(storage.State()))[|batch.value.recordIds|..]
      ensures batch.Some? <==> Fits(Limited(Unbatched(old(storage.State())), limit), maxBytes, network, now)
    {
      ghost var t := storage.State();
      var candidates := Limited(Where(HasNoBatch(storage.recordBatches), storage.records), limit);
      batch := None;
      if candidates == [] {
        return;
      }
      var chosen := ChooseRecords(candidates, maxBytes);
      if chosen.None? {
        NoneFits(candidates, maxBytes, network, now);
        return;
      }
      PrefixValid(rules, t, |chosen.value|);
      assert chosen.value == Unbatched(t)[..|chosen.value|];
      assert chosen.value == candidates[..|chosen.value|];
      batch := PackRecords(chosen.value, network, maxBytes, now);
      ChosenFits(candidates, maxBytes, network, now, |chosen.value|);
      if batch.Some? {
        BatchTaken(rules, t, chosen.value, batch.value);
        GreedyBatchOf(rules, t, limit, maxBytes, batch.value, candidates, |chosen.value|);
        var _ := storage.AddBatch(batch.value);
      }
    }

    /** The packaging loop of `create_batch`: it always returns in its first turn. */
    method PackRecords(records: seq<Record>, network: string, maxBytes: int, now: int) returns (batch: Option<Batch>)
      requires records != [] && Unique(RecordIdOf, records) && AllValid(rules, records)
      requires Estimate(records) <= maxBytes
      ensures batch.Some? <==> |records| <= MAX_BATCH_RECORDS && IsNetwork(network) && 0 <= now <= MAX_SAFE
      ensures batch.Some? ==> BatchOf(rules, batch.value, records) && Packs(rules, batch.value, records, maxBytes)
    {
      IdsBatchable(rules, records, network, now);
      batch := CreateBatchManifest(rules.sha, Ids(records), network, now);
      if batch.Some? {
        PackageFits(rules, batch.value, records);
        var package := CreatePackage(rules, batch.value, records);
        if |CanonicalBytes(PackageJson(package.value)).value| > maxBytes {
          // the source drops its last record here and tries again; it never comes to that
          assert false;
        }
      }
    }

    /** `register_scanned_anchor`. */
    method RegisterScannedAnchor(batchId: string, point: Outpoint) returns (ok: bool)
      modifies storage`anchors, storage`commitments
      ensures ok <==> Register(old(storage.State()), batchId, point).Some?
      ensures ok ==> storage.State() == Register(old(storage.State()), batchId, point).value
      ensures !ok ==> storage.State() == old(storage.State())
      ensures old(Valid()) ==> Valid()
    {
      ok := false;
      if Valid() && Register(storage.State(), batchId, point).Some? {
        RegisteredWellformed(rules, storage.State(), batchId, point);
      }
      var batch := storage.FindBatch(batchId);
      if batch.None? {
        return;
      }
      var matches := Where(AtPoint(point), CommitmentsOf(storage.commitments, batchId, COMMITMENT_WINDOW));
      if matches == [] {
        return false;
      }
      var commitment := matches[0];
      if commitment.payloadHex != batch.value.payloadHex {
        return false;
      }
      var _ := storage.AddAnchor(AnchorFor(commitment));
      for i := 0 to |matches|
        invariant storage.State() == old(storage.State()).(
                    anchors := AddAnchor(old(storage.anchors), AnchorFor(commitment)),
                    commitments := if i == 0 then old(storage.commitments)
                                   else MarkResolved(old(storage.commitments), point))
      {
        assert matches[i] in matches;
        ResolveTwice(old(storage.commitments), point);
        storage.MarkCommitmentResolved((matches[i].txid, matches[i].vout));
      }
      ok := true;
    }

    /** `import_anchor_reference`; `AlreadyExists` is the source's "updated". */
    method ImportAnchorReference(a: Anchor) returns (outcome: Outcome)
      requires Valid()
      modifies storage`anchors
      ensures Valid()
      ensures outcome == MissingDependency <==> ValidAnchorReference(a) && old(storage.FindBatch(a.batchId)).None?
      ensures outcome == Accepted || outcome == AlreadyExists <==>
                ValidAnchorReference(a) && ImportAnchor(old(storage.State()), a).Some?
      ensures outcome == Accepted || outcome == AlreadyExists ==>
                && storage.State() == ImportAnchor(old(storage.State()), a).value
                && (outcome == Accepted <==> old(storage.FindAnchor(AnchorKey(a))).None?)
      ensures outcome == Rejected || outcome == MissingDependency ==> storage.State() == old(storage.State())
    {
      if !ValidAnchorReference(a) {
        return Rejected;
      }
      var batch := storage.FindBatch(a.batchId);
      if batch.None? {
        return MissingDependency;
      }
      if a.network != batch.value.network {
        return Rejected;
      }
      var existing := storage.FindAnchor((a.txid, a.vout));
      if existing.Some? && existing.value.batchId != a.batchId {
        return Rejected;
      }
      var checked := existing.Some? && LocallyChecked(existing.value);
      var reference := Anchor(a.txid, a.vout, a.batchId, a.network,
        if checked then existing.value.status else Unverified,
        if checked then existing.value.anchoredAt else a.anchoredAt,
        if checked then existing.value.blockHash else a.blockHash,
        if checked then existing.value.blockHeight else a.blockHeight);
      WellformedWithAnchor(rules, storage.State(), reference);
      var added := storage.AddAnchor(reference);
      outcome := if added then Accepted else AlreadyExists;
    }

    /** `anchor_batch` once the node has broadcast the transaction. */
    method AnchorBatch(batchId: string, rpcNetwork: string, allowMainnet: bool, txid: string, vout: nat, now: int)
      returns (anchor: Option<Anchor>)
      requires Valid()
      modifies storage`anchors
      ensures Valid()
      ensures anchor.None? ==> storage.State() == old(storage.State())
      ensures anchor.Some? ==>
                && AnchorKey(anchor.value) == (txid, vout) && anchor.value.status == Broadcast
                && anchor.value.batchId == batchId && anchor.value.network == rpcNetwork
                && storage.State() == old(storage.State()).(anchors := AddAnchor(old(storage.anchors), anchor.value))
      ensures anchor.Some? <==>
                && old(storage.FindBatch(batchId)).Some?
                && old(storage.FindBatch(batchId)).value.network == rpcNetwork
                && (rpcNetwork == "mainnet" ==> allowMainnet)
    {
      var batch := storage.FindBatch(batchId);
      if batch.None? || !ValidBatch(rules.sha, batch.value) {
        return None;
      }
      if batch.value.network == "mainnet" && !allowMainnet {
        return None;
      }
      if rpcNetwork != batch.value.network {
        return None;
      }
      var made := Anchor(txid, vout, batchId, rpcNetwork, Broadcast, now, None, None);
      WellformedWithAnchor(rules, storage.State(), made);
      var _ := storage.AddAnchor(made);
      anchor := Some(made);
    }

    /** `proofs_for_record`: every batch that lists the record, with its proof and its anchors. */
    method ProofsForRecord(recordId: string) returns (proofs: seq<Proof>)
      requires Valid()
      ensures ProvenBatches(proofs) == Where(ListsRecord(storage.recordBatches, recordId), storage.batches)
      ensures forall p :: p in proofs ==> Proves(rules, storage.anchors, recordId, p)
    {
      proofs := [];
      ghost var lists := ListsRecord(storage.recordBatches, recordId);
      for i := 0 to |storage.batches|
        invariant ProvenBatches(proofs) == Where(lists, storage.batches[..i])
        invariant forall p :: p in proofs ==> Proves(rules, storage.anchors, recordId, p)
      {
        var proof := ProofInBatch(recordId, storage.batches[i]);
        NextProof(lists, storage.batches, i, proofs, proof);
        if proof.Some? {
          proofs := proofs + [proof.value];
        }
      }
      assert storage.batches[..|storage.batches|] == storage.batches;
    }

    /** The body of the loop of `proofs_for_record`. */
    method ProofInBatch(recordId: string, b: Batch) returns (proof: Option<Proof>)
      requires Valid() && b in storage.batches
      ensures proof.Some? <==> ListsRecord(storage.recordBatches, recordId)(b)
      ensures proof.Some? ==> proof.value.batch == b && Proves(rules, storage.anchors, recordId, proof.value)
    {
      var index := Find(Self, b.recordIds, recordId);
      FoundIndex(b.recordIds, recordId);
      if (recordId, b.batchId) !in storage.recordBatches || index == |b.recordIds| {
        proof := None;
      } else {
        var made := ProofAt(b, index);
        proof := Some(made);
      }
    }

    method ProofAt(b: Batch, index: nat) returns (proof: Proof)
      requires Valid() && b in storage.batches && IsFirst(b.recordIds, index)
      ensures proof.batch == b && Proves(rules, storage.anchors, b.recordIds[index], proof)
    {
      BatchHasLeaves(rules, storage.State(), b);
      var path := MerkleProof(rules.sha, b.recordIds, index);
      proof := Proof(b, index, path.value, storage.AnchorsOf(b.batchId));
      ProofProves(rules, storage.State(), b, index, path.value, proof.anchors);
    }
  }

  /** The first position of an identifier in the list. */
  predicate IsFirst(ids: seq<string>, index: nat) {
    index < |ids| && forall j :: 0 <= j < index ==> ids[j] != ids[index]
  }

  lemma FoundIndex(ids: seq<string>, id: string)
    ensures Find(Self, ids, id) < |ids| <==> id in ids
    ensures Find(Self, ids, id) < |ids| ==> IsFirst(ids, Find(Self, ids, id)) && ids[Find(Self, ids, id)] == id
  {
  }

  lemma NextProof(lists: Batch -> bool, batches: seq<Batch>, i: nat, proofs: seq<Proof>, proof: Option<Proof>)
    requires i < |batches| && ProvenBatches(proofs) == Where(lists, batches[..i])
    requires proof.Some? <==> lists(batches[i])
    requires proof.Some? ==> proof.value.batch == batches[i]
    ensures ProvenBatches(if proof.Some? then proofs + [proof.value] else proofs) == Where(lists, batches[..i + 1])
  {
    assert batches[..i + 1] == batches[..i] + [batches[i]];
    WhereAppend(lists, batches[..i], [batches[i]]);
    assert Where(lists, [batches[i]]) == if lists(batches[i]) then [batches[i]] else [];
  }

  /** An inclusion proof: the batch, where it lists the record, the path, and the batch's anchors. */
  datatype Proof = Proof(batch: Batch, index: nat, path: seq<StepText>, anchors: seq<Anchor>)

  function ProvenBatches(proofs: seq<Proof>): (r: seq<Batch>)
    ensures |r| == |proofs| && forall i :: 0 <= i < |proofs| ==> r[i] == proofs[i].batch
  {
    seq(|proofs|, i requires 0 <= i < |proofs| => proofs[i].batch)
  }

  function ListsRecord(links: map<(string, string), nat>, recordId: string): Batch -> bool {
    (b: Batch) => (recordId, b.batchId) in links && recordId in b.recordIds
  }

  /** The path has the depth of the tree and leads from the record, where the batch lists it
      first, to the root of the batch; the anchors are those of that batch. */
  predicate Proves(rules: Rules, anchors: seq<Anchor>, recordId: string, p: Proof) {
    && IsFirst(p.batch.recordIds, p.index) && p.batch.recordIds[p.index] == recordId
    && |p.path| == Depth(|p.batch.recordIds|) && Accepts(rules.sha, recordId, p.path, p.batch.merkleRoot)
    && p.anchors == Where(AnchorsBatch(p.batch.batchId), anchors)
  }

  lemma BatchHasLeaves(rules: Rules, t: Tables, b: Batch)
    requires Wellformed(rules, t) && b in t.batches
    ensures Leaves(b.recordIds).Some? && Some(b.merkleRoot) == RootText(rules.sha, b.recordIds)
  {
    assert ValidBatch(rules.sha, b);
    DigestsAreLeaves(b.recordIds);
  }

  lemma ProofProves(rules: Rules, t: Tables, b: Batch, index: nat, path: seq<StepText>, anchors: seq<Anchor>)
    requires Wellformed(rules, t) && b in t.batches && IsFirst(b.recordIds, index)
    requires Leaves(b.recordIds).Some? ==> path == PathToText(Merkle.Proof(rules.sha, Leaves(b.recordIds).value, index))
    requires anchors == if b.batchId == "" then t.anchors else Where(AnchorsBatch(b.batchId), t.anchors)
    ensures Proves(rules, t.anchors, b.recordIds[index], Proof(b, index, path, anchors))
  {
    BatchHasLeaves(rules, t, b);
    MerkleCompleteness(rules.sha, b.recordIds, index);
    assert IsDigestText(b.batchId);
  }

  lemma PrefixIsTake<T>(a: seq<T>, b: seq<T>)
    requires a <= b
    ensures a == b[..|a|]
  {
  }

  lemma UnbatchedValid(rules: Rules, t: Tables)
    requires Wellformed(rules, t)
    ensures Unique(RecordIdOf, Unbatched(t)) && AllValid(rules, Unbatched(t))
    ensures forall r :: r in Unbatched(t) ==> r in t.records
  {
    WhereUnique(RecordIdOf, HasNoBatch(t.recordBatches), t.records);
  }

  lemma PrefixValid(rules: Rules, t: Tables, k: nat)
    requires Wellformed(rules, t) && k <= |Unbatched(t)|
    ensures Unique(RecordIdOf, Unbatched(t)[..k]) && AllValid(rules, Unbatched(t)[..k])
    ensures forall r :: r in Unbatched(t)[..k] ==> r in t.records
  {
    UnbatchedValid(rules, t);
  }

  lemma EstimateOfNone()
    ensures Estimate([]) == BASE_ESTIMATE
  {
  }

  lemma IdsBatchable(rules: Rules, records: seq<Record>, network: string, now: int)
    requires Unique(RecordIdOf, records) && AllValid(rules, records) && records != []
    ensures Batchable(Ids(records), network, now) <==>
              |records| <= MAX_BATCH_RECORDS && IsNetwork(network) && 0 <= now <= MAX_SAFE
  {
    forall i | 0 <= i < |records|
      ensures IsDigestText(Ids(records)[i])
    {
      assert records[i] in records;
    }
    forall i, j | 0 <= i < j < |records|
      ensures Ids(records)[i] != Ids(records)[j]
    {
      assert RecordIdOf(records[i]) != RecordIdOf(records[j]);
    }
  }

  lemma ChosenStored(t: Tables, chosen: seq<Record>, ids: seq<string>)
    requires (forall id :: id in ids ==> id in Ids(chosen)) && forall r :: r in chosen ==> r in t.records
    ensures forall id :: id in ids ==> HasId(t.records, id)
  {
    forall id | id in ids
      ensures HasId(t.records, id)
    {
      var i :| 0 <= i < |chosen| && Ids(chosen)[i] == id;
      assert chosen[i] in t.records;
    }
  }

  /** Batching the first unbatched records takes exactly them from the unbatched list. */
  lemma BatchTaken(rules: Rules, t: Tables, records: seq<Record>, b: Batch)
    requires Wellformed(rules, t) && records <= Unbatched(t) && BatchOf(rules, b, records)
    ensures |b.recordIds| == |records|
    ensures Wellformed(rules, AddBatch(t, b))
    ensures Unbatched(AddBatch(t, b)) == Unbatched(t)[|records|..]
  {
    PrefixIsTake(records, Unbatched(t));
    BatchSize(rules, b, records);
    BatchListed(rules, b, records);
    UnbatchedAfter(t, b, |records|);
    BatchKeepsWellformed(rules, t, records, b);
  }

  lemma BatchListed(rules: Rules, b: Batch, records: seq<Record>)
    requires BatchOf(rules, b, records)
    ensures forall id :: id in b.recordIds <==> id in Ids(records)
  {
    SortedIds(Ids(records));
  }

  lemma TakenStored(rules: Rules, t: Tables, records: seq<Record>, ids: seq<string>)
    requires Wellformed(rules, t) && records <= Unbatched(t) && forall id :: id in ids ==> id in Ids(records)
    ensures forall id :: id in ids ==> HasId(t.records, id)
  {
    PrefixIsTake(records, Unbatched(t));
    PrefixValid(rules, t, |records|);
    ChosenStored(t, records, ids);
  }

  lemma BatchKeepsWellformed(rules: Rules, t: Tables, records: seq<Record>, b: Batch)
    requires Wellformed(rules, t) && records <= Unbatched(t) && ValidBatch(rules.sha, b)
    requires forall id :: id in b.recordIds ==> id in Ids(records)
    ensures Wellformed(rules, AddBatch(t, b))
  {
    TakenStored(rules, t, records, b.recordIds);
    WellformedWithBatch(rules, t, b);
  }

  lemma ResolveTwice(rows: seq<CommitmentRow>, point: Outpoint)
    ensures MarkResolved(MarkResolved(rows, point), point) == MarkResolved(rows, point)
  {
  }

  lemma PackageRecordsUnique(rules: Rules, p: Package)
    requires ValidPackage(rules, p)
    ensures Unique(RecordIdOf, p.records) && forall r :: r in p.records ==> ValidRecord(rules, r)
  {
    forall i, j | 0 <= i < j < |p.records|
      ensures RecordIdOf(p.records[i]) != RecordIdOf(p.records[j])
    {
      assert Ids(p.records)[i] == p.records[i].id && Ids(p.records)[j] == p.records[j].id;
    }
  }

  lemma PackageIdsStored(p: Package, stored: seq<Record>)
    requires Ids(p.records) == p.batch.recordIds && forall r :: r in p.records ==> HasId(stored, r.id)
    ensures forall id :: id in p.batch.recordIds ==> HasId(stored, id)
  {
    forall id | id in p.batch.recordIds
      ensures HasId(stored, id)
    {
      var i :| 0 <= i < |p.records| && Ids(p.records)[i] == id;
      assert p.records[i] in p.records;
    }
  }
}
