/** The rows of the node's index and what each SQL statement of hap/storage.py does to them.

    Tables that are read in ingest order are sequences in that order; `blocks` and
    `recordBatches` are keyed and never read in order. */
module Tables {
  import opened Bytes
  import opened Batches

  type Outpoint = (string, nat)

  datatype BlockRow = BlockRow(hash: string, time: int)

  datatype CommitmentRow = CommitmentRow(
    txid: string, vout: nat, batchId: string, payloadHex: string, network: string,
    height: nat, blockHash: string, blockTime: int, resolved: bool)

  datatype Status = Unverified | Broadcast | Confirmed | Reorganised | Invalid

  datatype Anchor = Anchor(
    txid: string, vout: nat, batchId: string, network: string, status: Status, anchoredAt: int,
    blockHash: Option<string>, blockHeight: Option<nat>)

  datatype Tables = Tables(
    records: seq<Record>,
    batches: seq<Batch>,
    recordBatches: map<(string, string), nat>,
    anchors: seq<Anchor>,
    blocks: map<nat, BlockRow>,
    commitments: seq<CommitmentRow>)

  const EMPTY := Tables([], [], map[], [], map[], [])

  function CommitmentKey(c: CommitmentRow): Outpoint {
    (c.txid, c.vout)
  }

  function AnchorKey(a: Anchor): Outpoint {
    (a.txid, a.vout)
  }

  // ---- generic table statements ---------------------------------------------------

  function Where<T(!new)>(p: T -> bool, rows: seq<T>): (r: seq<T>)
    ensures |r| <= |rows|
    ensures forall x :: x in r <==> x in rows && p(x)
  {
    if rows == [] then []
    else if p(rows[0]) then [rows[0]] + Where(p, rows[1..])
    else Where(p, rows[1..])
  }

  function Update<T(!new)>(f: T -> T, rows: seq<T>): (r: seq<T>)
    ensures |r| == |rows|
    ensures forall i :: 0 <= i < |rows| ==> r[i] == f(rows[i])
  {
    if rows == [] then [] else [f(rows[0])] + Update(f, rows[1..])
  }

  /** The position of a key, or the length of the table. */
  function Find<T(!new), K(==)>(key: T -> K, rows: seq<T>, k: K): (i: nat)
    ensures i <= |rows|
    ensures i < |rows| ==> key(rows[i]) == k
    ensures forall j :: 0 <= j < i ==> key(rows[j]) != k
  {
    if rows == [] || key(rows[0]) == k then 0 else 1 + Find(key, rows[1..], k)
  }

  function Row<T(!new), K(==)>(key: T -> K, rows: seq<T>, k: K): (r: Option<T>)
    ensures r.Some? ==> r.value in rows && key(r.value) == k
    ensures r.None? ==> forall x :: x in rows ==> key(x) != k
  {
    var i := Find(key, rows, k);
    if i < |rows| then Some(rows[i]) else None
  }

  predicate Unique<T(!new), K(==)>(key: T -> K, rows: seq<T>) {
    forall i, j :: 0 <= i < j < |rows| ==> key(rows[i]) != key(rows[j])
  }

  lemma SameRow<T(!new), K>(key: T -> K, rows: seq<T>, x: T, y: T)
    requires Unique(key, rows) && x in rows && y in rows && key(x) == key(y)
    ensures x == y
  {
  }

  /** `INSERT ... ON CONFLICT DO UPDATE`: a new key goes to the end, a known one keeps its place. */
  function Upsert<T(!new), K(==)>(key: T -> K, rows: seq<T>, x: T): (r: seq<T>)
    ensures Find(key, rows, key(x)) == |rows| ==> r == rows + [x]
  {
    var i := Find(key, rows, key(x));
    if i < |rows| then rows[i := x] else rows + [x]
  }

  lemma UpsertRows<T(!new), K>(key: T -> K, rows: seq<T>, x: T)
    requires Unique(key, rows)
    ensures Unique(key, Upsert(key, rows, x))
    ensures forall y :: y in Upsert(key, rows, x) <==> y == x || (y in rows && key(y) != key(x))
  {
    var i, r := Find(key, rows, key(x)), Upsert(key, rows, x);
    assert x in r by {
      assert r[i] == x;
    }
    forall y | y in rows && key(y) != key(x)
      ensures y in r
    {
      var j :| 0 <= j < |rows| && rows[j] == y;
      assert r[j] == y;
    }
  }

  /** `x` stands where the row with its key stood, or at the end; every other row is where it was. */
  ghost predicate Upserted<T(!new), K>(key: T -> K, rows: seq<T>, x: T, r: seq<T>) {
    && |rows| <= |r| <= |rows| + 1
    && (forall i :: 0 <= i < |rows| ==> r[i] == if key(rows[i]) == key(x) then x else rows[i])
    && (|r| == |rows| <==> exists y :: y in rows && key(y) == key(x))
    && (|r| > |rows| ==> r[|rows|] == x)
  }

  lemma UpsertInPlace<T(!new), K>(key: T -> K, rows: seq<T>, x: T)
    requires Unique(key, rows)
    ensures Upserted(key, rows, x, Upsert(key, rows, x)) && Unique(key, Upsert(key, rows, x))
  {
    UpsertRows(key, rows, x);
    var i := Find(key, rows, key(x));
    if i < |rows| {
      assert rows[i] in rows;
    }
  }

  lemma {:induction false} WhereUnique<T(!new), K>(key: T -> K, p: T -> bool, rows: seq<T>)
    requires Unique(key, rows)
    ensures Unique(key, Where(p, rows))
  {
    if rows != [] {
      WhereUnique(key, p, rows[1..]);
      forall y | y in Where(p, rows[1..])
        ensures key(y) != key(rows[0])
      {
        assert y in rows[1..];
      }
    }
  }

  lemma UpdateUnique<T(!new), K>(key: T -> K, f: T -> T, rows: seq<T>)
    requires Unique(key, rows) && forall x :: key(f(x)) == key(x)
    ensures Unique(key, Update(f, rows))
  {
  }

  lemma {:induction false} WhereAppend<T(!new)>(p: T -> bool, a: seq<T>, b: seq<T>)
    ensures Where(p, a + b) == Where(p, a) + Where(p, b)
  {
    if a == [] {
      assert a + b == b;
    } else {
      WhereAppend(p, a[1..], b);
      assert (a + b)[1..] == a[1..] + b && (a + b)[0] == a[0];
    }
  }

  lemma {:induction false} WhereAll<T(!new)>(p: T -> bool, rows: seq<T>)
    requires forall x :: x in rows ==> p(x)
    ensures Where(p, rows) == rows
  {
    if rows != [] {
      WhereAll(p, rows[1..]);
      assert rows[0] in rows;
    }
  }

  lemma {:induction false} WhereNone<T(!new)>(p: T -> bool, rows: seq<T>)
    requires forall x :: x in rows ==> !p(x)
    ensures Where(p, rows) == []
  {
    if rows != [] {
      WhereNone(p, rows[1..]);
      assert rows[0] in rows;
    }
  }

  lemma {:induction false} WhereSame<T(!new)>(p: T -> bool, q: T -> bool, rows: seq<T>)
    requires forall x :: x in rows ==> p(x) == q(x)
    ensures Where(p, rows) == Where(q, rows)
  {
    if rows != [] {
      assert rows[0] in rows && forall x :: x in rows[1..] ==> x in rows;
      WhereSame(p, q, rows[1..]);
    }
  }

  /** One row more. */
  lemma WhereNext<T(!new)>(p: T -> bool, rows: seq<T>, n: nat)
    requires n < |rows|
    ensures Where(p, rows[..n + 1]) == Where(p, rows[..n]) + (if p(rows[n]) then [rows[n]] else [])
  {
    assert rows[..n + 1] == rows[..n] + [rows[n]];
    WhereAppend(p, rows[..n], [rows[n]]);
    assert Where(p, [rows[n]]) == if p(rows[n]) then [rows[n]] else [];
  }

  lemma {:induction false} WhereTwice<T(!new)>(p: T -> bool, q: T -> bool, both: T -> bool, rows: seq<T>)
    requires forall x :: both(x) <==> p(x) && q(x)
    ensures Where(both, rows) == Where(q, Where(p, rows))
  {
    if rows != [] {
      WhereTwice(p, q, both, rows[1..]);
    }
  }

  lemma {:induction false} UpdateAppend<T(!new)>(f: T -> T, a: seq<T>, b: seq<T>)
    ensures Update(f, a + b) == Update(f, a) + Update(f, b)
  {
  }

  // ---- the statements -------------------------------------------------------------

  function AddAnchor(anchors: seq<Anchor>, a: Anchor): seq<Anchor> {
    Upsert(AnchorKey, anchors, a)
  }

  /** A known output keeps its `resolved` flag. */
  function AddCommitment(rows: seq<CommitmentRow>, c: CommitmentRow): seq<CommitmentRow> {
    match Row(CommitmentKey, rows, CommitmentKey(c))
    case Some(known) => Upsert(CommitmentKey, rows, c.(resolved := known.resolved))
    case None => Upsert(CommitmentKey, rows, c)
  }

  /** Whether the row of this output is known to be resolved. */
  ghost predicate KnownResolved(rows: seq<CommitmentRow>, point: Outpoint) {
    exists d :: d in rows && CommitmentKey(d) == point && d.resolved
  }

  ghost predicate Known(rows: seq<CommitmentRow>, point: Outpoint) {
    exists d :: d in rows && CommitmentKey(d) == point
  }

  /** The row in place is the new one with the flag of the known one. */
  lemma AddCommitmentInPlace(rows: seq<CommitmentRow>, c: CommitmentRow)
    requires Unique(CommitmentKey, rows)
    ensures var point := CommitmentKey(c);
            var row := if Known(rows, point) then c.(resolved := KnownResolved(rows, point)) else c;
            Upserted(CommitmentKey, rows, row, AddCommitment(rows, c)) && Unique(CommitmentKey, AddCommitment(rows, c))
  {
    var known := Row(CommitmentKey, rows, CommitmentKey(c));
    if known.Some? {
      assert forall d :: d in rows && CommitmentKey(d) == CommitmentKey(c) ==> d == known.value by {
        forall d | d in rows && CommitmentKey(d) == CommitmentKey(c)
          ensures d == known.value
        {
          SameRow(CommitmentKey, rows, d, known.value);
        }
      }
      UpsertInPlace(CommitmentKey, rows, c.(resolved := known.value.resolved));
    } else {
      UpsertInPlace(CommitmentKey, rows, c);
    }
  }

  function ResolveRow(point: Outpoint): CommitmentRow -> CommitmentRow {
    (c: CommitmentRow) => if CommitmentKey(c) == point then c.(resolved := true) else c
  }

  function MarkResolved(rows: seq<CommitmentRow>, point: Outpoint): seq<CommitmentRow> {
    Update(ResolveRow(point), rows)
  }

  /** Replaces the row of that height and any other row with that hash. */
  function AddScannedBlock(blocks: map<nat, BlockRow>, height: nat, row: BlockRow): map<nat, BlockRow> {
    (map h | h in blocks && blocks[h].hash != row.hash :: blocks[h])[height := row]
  }

  function Above(height: int): CommitmentRow -> bool {
    (c: CommitmentRow) => c.height > height
  }

  function AtMost(height: int): CommitmentRow -> bool {
    (c: CommitmentRow) => c.height <= height
  }

  /** The outputs that a rewind to this height forgets. */
  function ForgottenPoints(rows: seq<CommitmentRow>, height: int): set<Outpoint> {
    set c | c in Where(Above(height), rows) :: CommitmentKey(c)
  }

  function WithdrawAnchor(points: set<Outpoint>): Anchor -> Anchor {
    (a: Anchor) => if AnchorKey(a) in points then a.(status := Reorganised) else a
  }

  /** `rewind_bitcoin_scan`: three statements in one transaction. */
  function Rewind(t: Tables, height: int): Tables {
    t.(anchors := Update(WithdrawAnchor(ForgottenPoints(t.commitments, height)), t.anchors),
       commitments := Where(AtMost(height), t.commitments),
       blocks := map h | h in t.blocks && h <= height :: t.blocks[h])
  }

  function BatchIdOf(b: Batch): string {
    b.batchId
  }

  function RecordIdOf(r: Record): string {
    r.id
  }

  /** `INSERT OR IGNORE` into `batches` and one row per record into `record_batches`. */
  function AddBatch(t: Tables, b: Batch): Tables {
    t.(batches := if Row(BatchIdOf, t.batches, b.batchId).Some? then t.batches else t.batches + [b],
       recordBatches := LinkRecords(t.recordBatches, b.batchId, b.recordIds, 0))
  }

  function LinkRecords(links: map<(string, string), nat>, batchId: string, ids: seq<string>, from: nat):
    (r: map<(string, string), nat>)
    requires from <= |ids|
    ensures forall k :: k in r <==> k in links || (k.1 == batchId && k.0 in ids[from..])
    ensures forall k :: k in links ==> r[k] == links[k]
    decreases |ids| - from
  {
    if from == |ids| then links
    else
      var k := (ids[from], batchId);
      assert ids[from..] == [ids[from]] + ids[from + 1..];
      LinkRecords(if k in links then links else links[k := from], batchId, ids, from + 1)
  }

  function AddRecord(t: Tables, r: Record): Tables {
    if Row(RecordIdOf, t.records, r.id).Some? then t else t.(records := t.records + [r])
  }

  /** `anchored_record_ids`: the join of `record_batches` and the confirmed anchors. */
  function AnchoredRecordIds(t: Tables): set<string> {
    set k, a | k in t.recordBatches && a in t.anchors && a.batchId == k.1 && a.status == Confirmed :: k.0
  }

  function HasBatchId(batchId: string): CommitmentRow -> bool {
    (c: CommitmentRow) => c.batchId == batchId
  }

  function AnchorsBatch(batchId: string): Anchor -> bool {
    (a: Anchor) => a.batchId == batchId
  }

  /** `commitments(batch_id=..., limit=...)`. */
  function CommitmentsOf(rows: seq<CommitmentRow>, batchId: string, limit: nat): seq<CommitmentRow> {
    var all := Where(HasBatchId(batchId), rows);
    if |all| <= limit then all else all[..limit]
  }

  function IsUnresolved(c: CommitmentRow): bool {
    !c.resolved
  }

  function Unresolved(rows: seq<CommitmentRow>, limit: nat): seq<CommitmentRow> {
    var all := Where(IsUnresolved, rows);
    if |all| <= limit then all else all[..limit]
  }

  function HasNoBatch(links: map<(string, string), nat>): Record -> bool {
    (r: Record) => forall k :: k in links ==> k.0 != r.id
  }

  /** `records(unbatched_only=True)` without its limit. */
  function Unbatched(t: Tables): seq<Record> {
    Where(HasNoBatch(t.recordBatches), t.records)
  }
}
