/** What `resolve_commitments` amounts to on the tables (hap/discovery.py:172-213). */
module Resolving {
  import opened Bytes
  import opened Hex
  import opened Bitcoin
  import opened Batches
  import opened Packages
  import opened Tables
  import opened AnchorLaws
  import opened ChainIndex
  import opened Service

  /** What the peers answer for each scanned row: `_download_package` has validated the package
      and the loop over the peers has compared its batch id. */
  ghost predicate Answers(rules: Rules, answer: CommitmentRow -> Option<Package>) {
    forall c :: answer(c).Some? ==> ValidPackage(rules, answer(c).value) && answer(c).value.batch.batchId == c.batchId
  }

  ghost function WithPackage(t: Tables, p: Package): Tables {
    AddBatch(t.(records := t.records + p.records), p.batch)
  }

  /** One row: the package is imported, then the row is registered; nothing when that raises. */
  ghost function ResolveOne(t: Tables, c: CommitmentRow, p: Package): Option<Tables> {
    if SomeStuck(t.records, p.records) then None else Register(WithPackage(t, p), c.batchId, CommitmentKey(c))
  }

  /** The next row; one without an answer is passed over. */
  ghost function ResolveNext(t: Tables, answer: Option<Package>, c: CommitmentRow): Option<Tables> {
    if answer.None? then Some(t) else ResolveOne(t, c, answer.value)
  }

  /** The first `n` rows one after the other. */
  ghost function ResolveAll(t: Tables, answer: CommitmentRow -> Option<Package>, rows: seq<CommitmentRow>, n: nat):
    Option<Tables>
    requires n <= |rows|
  {
    if n == 0 then Some(t)
    else
      var before := ResolveAll(t, answer, rows, n - 1);
      if before.None? then None else ResolveNext(before.value, answer(rows[n - 1]), rows[n - 1])
  }

  // ---- the order of the records does not matter -----------------------------------

  ghost predicate SameIds(a: seq<Record>, b: seq<Record>) {
    forall id :: HasId(a, id) <==> HasId(b, id)
  }

  /** The same tables, but for the order of the records and what is stored under an identifier twice. */
  ghost predicate Alike(t: Tables, u: Tables) {
    u == t.(records := u.records) && SameIds(t.records, u.records)
  }

  lemma StuckAlike(a: seq<Record>, b: seq<Record>, all: seq<Record>)
    requires SameIds(a, b) && SomeStuck(a, all)
    ensures SomeStuck(b, all)
  {
    var waiting :| (forall r :: r in waiting ==> r in all) && Stuck(a, waiting);
    assert Stuck(b, waiting);
  }

  lemma JoinedIds(a: seq<Record>, b: seq<Record>, id: string)
    ensures HasId(a + b, id) <==> HasId(a, id) || HasId(b, id)
  {
    assert forall r :: r in a + b <==> r in a || r in b;
  }

  lemma JoinedAlike(a: seq<Record>, b: seq<Record>, more: seq<Record>)
    requires SameIds(a, b)
    ensures SameIds(a + more, b + more)
  {
    forall id
      ensures HasId(a + more, id) <==> HasId(b + more, id)
    {
      JoinedIds(a, more, id);
      JoinedIds(b, more, id);
    }
  }

  lemma RegisterAlike(t: Tables, u: Tables, batchId: string, point: Outpoint)
    requires Alike(t, u)
    ensures Register(t, batchId, point).Some? <==> Register(u, batchId, point).Some?
    ensures Register(t, batchId, point).Some? ==>
              Alike(Register(t, batchId, point).value, Register(u, batchId, point).value)
  {
  }

  /** Tables that are alike resolve alike. */
  lemma ResolveAlike(t: Tables, u: Tables, c: CommitmentRow, p: Package)
    requires Alike(t, u)
    ensures ResolveOne(t, c, p).Some? <==> ResolveOne(u, c, p).Some?
    ensures ResolveOne(t, c, p).Some? ==> Alike(ResolveOne(t, c, p).value, ResolveOne(u, c, p).value)
  {
    if SomeStuck(t.records, p.records) {
      StuckAlike(t.records, u.records, p.records);
    } else if SomeStuck(u.records, p.records) {
      StuckAlike(u.records, t.records, p.records);
    } else {
      JoinedAlike(t.records, u.records, p.records);
      RegisterAlike(WithPackage(t, p), WithPackage(u, p), c.batchId, CommitmentKey(c));
    }
  }

  /** What an import leaves is, but for the order, what the function says. */
  lemma ImportedAlike(t: Tables, p: Package, u: Tables)
    requires u == AddBatch(t.(records := u.records), p.batch) && AddsOnly(t.records, u.records, p.records)
    requires forall r :: r in p.records ==> HasId(u.records, r.id)
    ensures Alike(WithPackage(t, p), u)
  {
    forall id
      ensures HasId(t.records + p.records, id) <==> HasId(u.records, id)
    {
      JoinedIds(t.records, p.records, id);
      AddedIds(t.records, u.records, p.records, id);
    }
  }

  lemma AddedIds(before: seq<Record>, after: seq<Record>, all: seq<Record>, id: string)
    requires AddsOnly(before, after, all) && forall r :: r in all ==> HasId(after, r.id)
    ensures HasId(after, id) <==> HasId(before, id) || HasId(all, id)
  {
    if HasId(after, id) {
      var r :| r in after && r.id == id;
      var i :| 0 <= i < |after| && after[i] == r;
      assert i < |before| ==> before[i] == r;
    }
    if HasId(before, id) {
      HasIdLonger(before, after, id);
    }
  }

  /** The loop has come through the first `n` rows. */
  ghost predicate ResolvedSoFar(
    t: Tables, answer: CommitmentRow -> Option<Package>, rows: seq<CommitmentRow>, n: nat, u: Tables)
    requires n <= |rows|
  {
    ResolveAll(t, answer, rows, n).Some? && Alike(ResolveAll(t, answer, rows, n).value, u)
  }

  lemma ResolveGoesOn(
    t: Tables, answer: CommitmentRow -> Option<Package>, rows: seq<CommitmentRow>, n: nat, u: Tables, v: Tables)
    requires n < |rows| && ResolvedSoFar(t, answer, rows, n, u)
    requires match answer(rows[n]) {
               case None => v == u
               case Some(p) =>
                 ResolveOne(u, rows[n], p).Some? && Alike(ResolveOne(u, rows[n], p).value, v)
             }
    ensures ResolvedSoFar(t, answer, rows, n + 1, v)
  {
    if answer(rows[n]).Some? {
      ResolveAlike(ResolveAll(t, answer, rows, n).value, u, rows[n], answer(rows[n]).value);
    }
  }

  lemma ResolveStops(t: Tables, answer: CommitmentRow -> Option<Package>, rows: seq<CommitmentRow>, n: nat, u: Tables)
    requires n < |rows| && ResolvedSoFar(t, answer, rows, n, u)
    requires answer(rows[n]).Some? && ResolveOne(u, rows[n], answer(rows[n]).value).None?
    ensures ResolveAll(t, answer, rows, |rows|).None?
  {
    ResolveAlike(ResolveAll(t, answer, rows, n).value, u, rows[n], answer(rows[n]).value);
    NothingAfter(t, answer, rows, n + 1, |rows|);
  }

  lemma StopsNext(t: Tables, answer: CommitmentRow -> Option<Package>, rows: seq<CommitmentRow>, n: nat)
    requires 0 < n <= |rows| && ResolveAll(t, answer, rows, n - 1).None?
    ensures ResolveAll(t, answer, rows, n).None?
  {
  }

  lemma {:induction false} NothingAfter(
    t: Tables, answer: CommitmentRow -> Option<Package>, rows: seq<CommitmentRow>, n: nat, m: nat)
    requires n <= m <= |rows| && ResolveAll(t, answer, rows, n).None?
    ensures ResolveAll(t, answer, rows, m).None?
  {
    if n < m {
      NothingAfter(t, answer, rows, n, m - 1);
      StopsNext(t, answer, rows, m);
    }
  }

  // ---- rows of another payload type -----------------------------------------------

  /** The scanner takes every type byte, the batch validator takes one only. */
  ghost predicate IsOtherType(c: CommitmentRow) {
    exists d: Digest, other: Byte :: other != BATCH_MANIFEST && c.payloadHex == ToHex(PayloadBytes(d, other))
  }

  ghost predicate BatchesValid(rules: Rules, t: Tables) {
    forall b :: b in t.batches ==> ValidBatch(rules.sha, b)
  }

  lemma OtherTypeNotValid(sha: HashFunction, b: Batch, c: CommitmentRow)
    requires ValidBatch(sha, b) && IsOtherType(c)
    ensures b.payloadHex != c.payloadHex
  {
    var d: Digest, other: Byte :| other != BATCH_MANIFEST && c.payloadHex == ToHex(PayloadBytes(d, other));
    PayloadRoundTrip(d, other);
  }

  /** A scanned row of another type never registers. */
  lemma OtherTypeNeverRegisters(rules: Rules, t: Tables, c: CommitmentRow)
    requires Keyed(t) && BatchesValid(rules, t) && c in t.commitments && IsOtherType(c)
    ensures Register(t, c.batchId, CommitmentKey(c)).None?
  {
    RegisterSucceeds(t, c.batchId, CommitmentKey(c));
    if Register(t, c.batchId, CommitmentKey(c)).Some? {
      var b, d :| && b in t.batches && d in CommitmentsOf(t.commitments, c.batchId, COMMITMENT_WINDOW)
                  && CommitmentKey(d) == CommitmentKey(c) && d.payloadHex == b.payloadHex;
      SameRow(CommitmentKey, t.commitments, c, d);
      OtherTypeNotValid(rules.sha, b, c);
    }
  }

  /** The same rows, up to their flags. */
  ghost predicate SamePayloads(a: seq<CommitmentRow>, b: seq<CommitmentRow>) {
    |a| == |b| && forall i :: 0 <= i < |a| ==> b[i] == a[i].(resolved := b[i].resolved)
  }

  ghost predicate Ready(rules: Rules, t: Tables, u: Tables) {
    Keyed(u) && BatchesValid(rules, u) && SamePayloads(t.commitments, u.commitments)
  }

  lemma RegisterReady(rules: Rules, t: Tables, u: Tables, batchId: string, point: Outpoint)
    requires Ready(rules, t, u) && Register(u, batchId, point).Some?
    ensures Ready(rules, t, Register(u, batchId, point).value)
  {
    UpsertRows(AnchorKey, u.anchors, AnchorFor(Matches(u, batchId, point)[0]));
    UpdateUnique(CommitmentKey, ResolveRow(point), u.commitments);
    MarkedPayloads(u.commitments, point);
  }

  lemma MarkedPayloads(rows: seq<CommitmentRow>, point: Outpoint)
    ensures SamePayloads(rows, MarkResolved(rows, point))
  {
  }

  lemma ImportReady(rules: Rules, t: Tables, u: Tables, p: Package)
    requires Ready(rules, t, u) && ValidBatch(rules.sha, p.batch)
    ensures Ready(rules, t, WithPackage(u, p))
  {
    AddBatchAdds(u.(records := u.records + p.records), p.batch);
    AddBatchLinks(u.(records := u.records + p.records), p.batch);
  }

  lemma NextReady(rules: Rules, t: Tables, u: Tables, answer: Option<Package>, c: CommitmentRow)
    requires Ready(rules, t, u) && (answer.Some? ==> ValidBatch(rules.sha, answer.value.batch))
    requires ResolveNext(u, answer, c).Some?
    ensures Ready(rules, t, ResolveNext(u, answer, c).value)
  {
    if answer.Some? {
      ImportReady(rules, t, u, answer.value);
      RegisterReady(rules, t, WithPackage(u, answer.value), c.batchId, CommitmentKey(c));
    }
  }

  lemma {:induction false} ResolveReady(
    rules: Rules, t: Tables, answer: CommitmentRow -> Option<Package>, rows: seq<CommitmentRow>, n: nat)
    requires Keyed(t) && BatchesValid(rules, t) && Answers(rules, answer) && n <= |rows|
    requires ResolveAll(t, answer, rows, n).Some?
    ensures Ready(rules, t, ResolveAll(t, answer, rows, n).value)
  {
    if n > 0 {
      ResolveReady(rules, t, answer, rows, n - 1);
      AnswerValid(rules, answer, rows[n - 1]);
      NextReady(rules, t, ResolveAll(t, answer, rows, n - 1).value, answer(rows[n - 1]), rows[n - 1]);
    }
  }

  lemma AnswerValid(rules: Rules, answer: CommitmentRow -> Option<Package>, c: CommitmentRow)
    requires Answers(rules, answer)
    ensures answer(c).Some? ==> ValidBatch(rules.sha, answer(c).value.batch)
  {
  }

  /** So one answered row of another type makes the whole call raise. */
  lemma OtherTypeStops(
    rules: Rules, t: Tables, answer: CommitmentRow -> Option<Package>, rows: seq<CommitmentRow>, i: nat)
    requires Keyed(t) && BatchesValid(rules, t) && Answers(rules, answer) && i < |rows|
    requires rows[i] in t.commitments && IsOtherType(rows[i]) && answer(rows[i]).Some?
    ensures ResolveAll(t, answer, rows, |rows|).None?
  {
    if ResolveAll(t, answer, rows, i).Some? {
      ResolveReady(rules, t, answer, rows, i);
      AnswerValid(rules, answer, rows[i]);
      OtherTypeOne(rules, t, ResolveAll(t, answer, rows, i).value, rows[i], answer(rows[i]).value);
    }
    NothingAfter(t, answer, rows, i + 1, |rows|);
  }

  lemma OtherTypeOne(rules: Rules, t: Tables, u: Tables, c: CommitmentRow, p: Package)
    requires Ready(rules, t, u) && c in t.commitments && IsOtherType(c) && ValidBatch(rules.sha, p.batch)
    ensures ResolveOne(u, c, p).None?
  {
    ImportReady(rules, t, u, p);
    OtherTypeRow(rules, t, WithPackage(u, p), c);
  }

  lemma OtherTypeRow(rules: Rules, t: Tables, u: Tables, c: CommitmentRow)
    requires Ready(rules, t, u) && c in t.commitments && IsOtherType(c)
    ensures Register(u, c.batchId, CommitmentKey(c)).None?
  {
    var i :| 0 <= i < |t.commitments| && t.commitments[i] == c;
    var d := u.commitments[i];
    assert d.payloadHex == c.payloadHex && CommitmentKey(d) == CommitmentKey(c) && d.batchId == c.batchId;
    OtherTypeNeverRegisters(rules, u, d);
  }

  // ---- when the whole call succeeds -----------------------------------------------

  /** No batch is committed to more often than a registration can see. */
  ghost predicate Windowed(rows: seq<CommitmentRow>) {
    forall id :: |Where(HasBatchId(id), rows)| <= COMMITMENT_WINDOW
  }

  lemma SameWindow(a: seq<CommitmentRow>, b: seq<CommitmentRow>, id: string)
    requires SamePayloads(a, b)
    ensures |Where(HasBatchId(id), a)| == |Where(HasBatchId(id), b)|
  {
    ErasedBatch(a, id);
    ErasedBatch(b, id);
    assert Erase(a) == Erase(b);
  }

  /** The payload text that is stored for a batch. */
  ghost function TextIn(batches: seq<Batch>, id: string): Option<string> {
    match Row(BatchIdOf, batches, id)
    case Some(b) => Some(b.payloadHex)
    case None => None
  }

  /** The records that came with the answers to the first `n` rows. */
  ghost function Arrived(answer: CommitmentRow -> Option<Package>, rows: seq<CommitmentRow>, n: nat): seq<Record>
    requires n <= |rows|
  {
    if n == 0 then []
    else Arrived(answer, rows, n - 1) + (match answer(rows[n - 1]) case Some(p) => p.records case None => [])
  }

  /** The payload text of a batch after the first `n` rows: that of the batch stored before, or
      else of the first one that came under its identifier. */
  ghost function TextAfter(
    t: Tables, answer: CommitmentRow -> Option<Package>, rows: seq<CommitmentRow>, n: nat, id: string): Option<string>
    requires n <= |rows|
  {
    if n == 0 then TextIn(t.batches, id)
    else
      var before := TextAfter(t, answer, rows, n - 1, id);
      match answer(rows[n - 1])
      case Some(p) => if before.None? && p.batch.batchId == id then Some(p.batch.payloadHex) else before
      case None => before
  }

  /** This row, if it is answered, brings no records that wait for each other, and its payload text
      is that of its batch. */
  ghost predicate Resolvable(
    t: Tables, answer: CommitmentRow -> Option<Package>, rows: seq<CommitmentRow>, i: nat, next: nat)
    requires i < next <= |rows|
  {
    answer(rows[i]).Some? ==>
      && !SomeStuck(t.records + Arrived(answer, rows, i), answer(rows[i]).value.records)
      && TextAfter(t, answer, rows, next, rows[i].batchId) == Some(rows[i].payloadHex)
  }

  ghost predicate AllResolvable(
    t: Tables, answer: CommitmentRow -> Option<Package>, rows: seq<CommitmentRow>, n: nat)
    requires n <= |rows|
  {
    forall i, next :: 0 <= i < n && next == i + 1 ==> Resolvable(t, answer, rows, i, next)
  }

  lemma RowAppended(batches: seq<Batch>, b: Batch, id: string)
    ensures TextIn(batches + [b], id) ==
              if TextIn(batches, id).None? && b.batchId == id then Some(b.payloadHex) else TextIn(batches, id)
  {
    var i, j := Find(BatchIdOf, batches, id), Find(BatchIdOf, batches + [b], id);
    assert forall k :: 0 <= k < |batches| ==> (batches + [b])[k] == batches[k];
    assert (batches + [b])[|batches|] == b;
    assert i < |batches| ==> j == i;
  }

  lemma TextWithPackage(u: Tables, p: Package, id: string)
    ensures TextIn(WithPackage(u, p).batches, id) ==
              if TextIn(u.batches, id).None? && p.batch.batchId == id then Some(p.batch.payloadHex)
              else TextIn(u.batches, id)
  {
    RowAppended(u.batches, p.batch, id);
  }

  /** The tables after the first `n` rows, as far as the next row asks. */
  ghost predicate CameTo(
    t: Tables, answer: CommitmentRow -> Option<Package>, rows: seq<CommitmentRow>, n: nat, u: Tables)
    requires n <= |rows|
  {
    && u.records == t.records + Arrived(answer, rows, n)
    && forall id :: TextIn(u.batches, id) == TextAfter(t, answer, rows, n, id)
  }

  lemma AnsweredText(
    t: Tables, answer: CommitmentRow -> Option<Package>, rows: seq<CommitmentRow>, n: nat, next: nat, u: Tables,
    p: Package, id: string)
    requires n < |rows| && next == n + 1 && CameTo(t, answer, rows, n, u) && answer(rows[n]) == Some(p)
    ensures TextIn(WithPackage(u, p).batches, id) == TextAfter(t, answer, rows, next, id)
  {
    TextWithPackage(u, p, id);
  }

  lemma ComesNext(
    t: Tables, answer: CommitmentRow -> Option<Package>, rows: seq<CommitmentRow>, n: nat, next: nat, u: Tables,
    v: Tables)
    requires n < |rows| && next == n + 1 && CameTo(t, answer, rows, n, u)
    requires ResolveNext(u, answer(rows[n]), rows[n]) == Some(v)
    ensures CameTo(t, answer, rows, next, v)
  {
    match answer(rows[n]) {
      case None =>
        assert Arrived(answer, rows, next) == Arrived(answer, rows, n);
      case Some(p) =>
        forall id
          ensures TextIn(v.batches, id) == TextAfter(t, answer, rows, next, id)
        {
          AnsweredText(t, answer, rows, n, next, u, p, id);
        }
        assert t.records + Arrived(answer, rows, n) + p.records == t.records + (Arrived(answer, rows, n) + p.records);
    }
  }

  /** A row that is in the window registers exactly when its text is that of its batch. */
  lemma RowRegisters(rules: Rules, t: Tables, u: Tables, c: CommitmentRow)
    requires Ready(rules, t, u) && Windowed(t.commitments) && c in t.commitments
    ensures Register(u, c.batchId, CommitmentKey(c)).Some? <==> TextIn(u.batches, c.batchId) == Some(c.payloadHex)
  {
    var d := SameRowIn(t.commitments, u.commitments, c);
    SameWindow(t.commitments, u.commitments, c.batchId);
    InWindowRegisters(u, d);
  }

  lemma SameRowIn(a: seq<CommitmentRow>, b: seq<CommitmentRow>, c: CommitmentRow) returns (d: CommitmentRow)
    requires SamePayloads(a, b) && c in a
    ensures d in b && CommitmentKey(d) == CommitmentKey(c) && d.batchId == c.batchId && d.payloadHex == c.payloadHex
  {
    var i :| 0 <= i < |a| && a[i] == c;
    d := b[i];
  }

  lemma InWindowRegisters(u: Tables, d: CommitmentRow)
    requires Keyed(u) && d in u.commitments && |Where(HasBatchId(d.batchId), u.commitments)| <= COMMITMENT_WINDOW
    ensures Register(u, d.batchId, CommitmentKey(d)).Some? <==> TextIn(u.batches, d.batchId) == Some(d.payloadHex)
  {
    var rows, point := CommitmentsOf(u.commitments, d.batchId, COMMITMENT_WINDOW), CommitmentKey(d);
    RegisterSucceeds(u, d.batchId, point);
    assert d in rows;
    if Register(u, d.batchId, point).Some? {
      var b, e :| && b in u.batches && b.batchId == d.batchId && e in rows
                  && CommitmentKey(e) == point && e.payloadHex == b.payloadHex;
      SameRow(CommitmentKey, u.commitments, d, e);
      SameRow(BatchIdOf, u.batches, b, Row(BatchIdOf, u.batches, d.batchId).value);
    }
  }

  lemma OneAnswered(rules: Rules, t: Tables, u: Tables, c: CommitmentRow, p: Package)
    requires Ready(rules, t, u) && Windowed(t.commitments) && c in t.commitments && ValidBatch(rules.sha, p.batch)
    ensures ResolveOne(u, c, p).Some? <==>
              !SomeStuck(u.records, p.records) && TextIn(WithPackage(u, p).batches, c.batchId) == Some(c.payloadHex)
  {
    ImportReady(rules, t, u, p);
    RowRegisters(rules, t, WithPackage(u, p), c);
  }

  /** One row, from tables that came so far. */
  lemma OneResolvable(
    rules: Rules, t: Tables, answer: CommitmentRow -> Option<Package>, rows: seq<CommitmentRow>, i: nat, next: nat,
    u: Tables)
    requires Ready(rules, t, u) && Windowed(t.commitments) && Answers(rules, answer)
    requires i < |rows| && next == i + 1 && rows[i] in t.commitments && CameTo(t, answer, rows, i, u)
    ensures ResolveNext(u, answer(rows[i]), rows[i]).Some? <==> Resolvable(t, answer, rows, i, next)
  {
    var c := rows[i];
    if answer(c).Some? {
      AnswerValid(rules, answer, c);
      OneAnswered(rules, t, u, c, answer(c).value);
      AnsweredText(t, answer, rows, i, next, u, answer(c).value, c.batchId);
    }
  }

  /** The tables after the first `n` rows, and whether there are any. */
  ghost predicate Exactly(
    rules: Rules, t: Tables, answer: CommitmentRow -> Option<Package>, rows: seq<CommitmentRow>, n: nat,
    u: Option<Tables>)
    requires n <= |rows|
  {
    && (u.Some? <==> AllResolvable(t, answer, rows, n))
    && (u.Some? ==> Ready(rules, t, u.value) && CameTo(t, answer, rows, n, u.value))
  }

  lemma AllResolvableNext(
    t: Tables, answer: CommitmentRow -> Option<Package>, rows: seq<CommitmentRow>, n: nat, next: nat)
    requires n < |rows| && next == n + 1
    ensures AllResolvable(t, answer, rows, next) <==>
              AllResolvable(t, answer, rows, n) && Resolvable(t, answer, rows, n, next)
  {
  }

  lemma NextExactly(
    rules: Rules, t: Tables, answer: CommitmentRow -> Option<Package>, rows: seq<CommitmentRow>, n: nat, next: nat,
    u: Option<Tables>)
    requires Windowed(t.commitments) && Answers(rules, answer)
    requires n < |rows| && next == n + 1 && rows[n] in t.commitments && Exactly(rules, t, answer, rows, n, u)
    ensures Exactly(rules, t, answer, rows, next,
                    if u.None? then None else ResolveNext(u.value, answer(rows[n]), rows[n]))
  {
    AllResolvableNext(t, answer, rows, n, next);
    if u.Some? {
      OneResolvable(rules, t, answer, rows, n, next, u.value);
      var v := ResolveNext(u.value, answer(rows[n]), rows[n]);
      if v.Some? {
        AnswerValid(rules, answer, rows[n]);
        NextReady(rules, t, u.value, answer(rows[n]), rows[n]);
        ComesNext(t, answer, rows, n, next, u.value, v.value);
      }
    }
  }

  lemma {:induction false} ResolvesSoFar(
    rules: Rules, t: Tables, answer: CommitmentRow -> Option<Package>, rows: seq<CommitmentRow>, n: nat)
    requires Keyed(t) && BatchesValid(rules, t) && Windowed(t.commitments) && Answers(rules, answer)
    requires n <= |rows| && forall c :: c in rows ==> c in t.commitments
    ensures Exactly(rules, t, answer, rows, n, ResolveAll(t, answer, rows, n))
  {
    if n == 0 {
      assert t.records + Arrived(answer, rows, 0) == t.records;
    } else {
      var last := n - 1;
      ResolvesSoFar(rules, t, answer, rows, last);
      NextExactly(rules, t, answer, rows, last, n, ResolveAll(t, answer, rows, last));
    }
  }

  /** Where no batch is committed to too often, the whole call succeeds exactly when every row that
      is answered, in order, brings no records that wait for each other and has the payload text
      of the batch first stored, or first answered, under its identifier. */
  lemma ResolvesExactly(
    rules: Rules, t: Tables, answer: CommitmentRow -> Option<Package>, rows: seq<CommitmentRow>)
    requires Keyed(t) && BatchesValid(rules, t) && Windowed(t.commitments) && Answers(rules, answer)
    requires forall c :: c in rows ==> c in t.commitments
    ensures ResolveAll(t, answer, rows, |rows|).Some? <==> AllResolvable(t, answer, rows, |rows|)
  {
    ResolvesSoFar(rules, t, answer, rows, |rows|);
  }
}
