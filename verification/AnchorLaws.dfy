/** What keeps confirmed anchors and resolved commitments in step: the steps of
    hap/service.py that write anchors, and the invariant each of them keeps. */
module AnchorLaws {
  import opened Bytes
  import opened Batches
  import opened Tables

  const COMMITMENT_WINDOW := 10_000

  // ---- the steps ------------------------------------------------------------------

  function AnchorFor(c: CommitmentRow): Anchor {
    Anchor(c.txid, c.vout, c.batchId, c.network, Confirmed, c.blockTime, Some(c.blockHash), Some(c.height))
  }

  function AtPoint(point: Outpoint): CommitmentRow -> bool {
    (c: CommitmentRow) => CommitmentKey(c) == point
  }

  /** The rows `register_scanned_anchor` looks at. */
  function Matches(t: Tables, batchId: string, point: Outpoint): seq<CommitmentRow> {
    Where(AtPoint(point), CommitmentsOf(t.commitments, batchId, COMMITMENT_WINDOW))
  }

  /** `register_scanned_anchor`; nothing when it raises. */
  function Register(t: Tables, batchId: string, point: Outpoint): Option<Tables> {
    match Row(BatchIdOf, t.batches, batchId)
    case None => None
    case Some(batch) =>
      var matches := Matches(t, batchId, point);
      if matches == [] || matches[0].payloadHex != batch.payloadHex then None
      else Some(t.(anchors := AddAnchor(t.anchors, AnchorFor(matches[0])),
                   commitments := MarkResolved(t.commitments, point)))
  }

  predicate LocallyChecked(a: Anchor) {
    a.status != Unverified
  }

  /** What `import_anchor_reference` stores for a reference to a known batch. */
  function LocalReference(t: Tables, a: Anchor): Anchor {
    match Row(AnchorKey, t.anchors, AnchorKey(a))
    case Some(existing) =>
      if LocallyChecked(existing) then existing.(batchId := a.batchId, network := a.network)
      else a.(status := Unverified)
    case None => a.(status := Unverified)
  }

  /** `import_anchor_reference` after the shape check; nothing when it raises. */
  function ImportAnchor(t: Tables, a: Anchor): Option<Tables> {
    match Row(BatchIdOf, t.batches, a.batchId)
    case None => None
    case Some(batch) =>
      if a.network != batch.network then None
      else
        match Row(AnchorKey, t.anchors, AnchorKey(a)) {
          case Some(existing) =>
            if existing.batchId != a.batchId then None
            else Some(t.(anchors := AddAnchor(t.anchors, LocalReference(t, a))))
          case None => Some(t.(anchors := AddAnchor(t.anchors, LocalReference(t, a))))
        }
  }

  // ---- the invariant --------------------------------------------------------------

  /** A resolved commitment row that vouches for a confirmed anchor. */
  ghost predicate Backs(c: CommitmentRow, a: Anchor) {
    && c.resolved
    && CommitmentKey(c) == AnchorKey(a)
    && c.batchId == a.batchId
    && a.blockHash == Some(c.blockHash)
    && a.blockHeight == Some(c.height)
  }

  ghost predicate Backed(t: Tables, a: Anchor) {
    exists c :: c in t.commitments && Backs(c, a)
  }

  ghost predicate Published(t: Tables, c: CommitmentRow) {
    exists a :: a in t.anchors && a.status == Confirmed && Backs(c, a)
  }

  /** A stored batch is the one this row commits to, payload text included. */
  ghost predicate Retrieved(t: Tables, c: CommitmentRow) {
    exists b :: b in t.batches && b.batchId == c.batchId && b.payloadHex == c.payloadHex
  }

  ghost predicate Keyed(t: Tables) {
    Unique(CommitmentKey, t.commitments) && Unique(AnchorKey, t.anchors) && Unique(BatchIdOf, t.batches)
  }

  ghost predicate AnchorsMatch(t: Tables) {
    && Keyed(t)
    && (forall a :: a in t.anchors && a.status == Confirmed ==> Backed(t, a))
    && (forall c :: c in t.commitments && c.resolved ==> Published(t, c) && Retrieved(t, c))
  }

  /** Every record listed under a batch id belongs to a valid batch with that id. */
  ghost predicate RecordBatchesValid(rules: Rules, t: Tables) {
    && (forall b :: b in t.batches ==> ValidBatch(rules.sha, b))
    && (forall k :: k in t.recordBatches ==>
          exists b: Batch :: ValidBatch(rules.sha, b) && b.batchId == k.1 && k.0 in b.recordIds)
  }

  /** The invariant read off: confirmed means committed, and nothing else does. */
  lemma ConfirmedIffCommitted(t: Tables, a: Anchor)
    requires AnchorsMatch(t) && a in t.anchors
    ensures a.status == Confirmed <==> Backed(t, a)
  {
    if Backed(t, a) {
      var c :| c in t.commitments && Backs(c, a);
      assert Published(t, c);
      var other :| other in t.anchors && other.status == Confirmed && Backs(c, other);
      SameRow(AnchorKey, t.anchors, a, other);
    }
  }

  // ---- each step keeps it ---------------------------------------------------------

  lemma MarkedRows(rows: seq<CommitmentRow>, point: Outpoint)
    requires Unique(CommitmentKey, rows)
    ensures Unique(CommitmentKey, MarkResolved(rows, point))
    ensures forall c :: c in rows && CommitmentKey(c) != point ==> c in MarkResolved(rows, point)
    ensures forall c :: c in rows && CommitmentKey(c) == point ==> c.(resolved := true) in MarkResolved(rows, point)
    ensures forall d :: d in MarkResolved(rows, point) ==>
              exists c :: c in rows && d == if CommitmentKey(c) == point then c.(resolved := true) else c
  {
    var marked := MarkResolved(rows, point);
    UpdateUnique(CommitmentKey, ResolveRow(point), rows);
    forall c | c in rows
      ensures (if CommitmentKey(c) == point then c.(resolved := true) else c) in marked
    {
      var i :| 0 <= i < |rows| && rows[i] == c;
      assert marked[i] in marked;
    }
    forall d | d in marked
      ensures exists c :: c in rows && d == if CommitmentKey(c) == point then c.(resolved := true) else c
    {
      var i :| 0 <= i < |marked| && marked[i] == d;
      assert rows[i] in rows;
    }
  }

  /** Confirming one row that is present, with its batch at hand. */
  function Confirm(t: Tables, c: CommitmentRow): Tables {
    t.(anchors := AddAnchor(t.anchors, AnchorFor(c)), commitments := MarkResolved(t.commitments, CommitmentKey(c)))
  }

  lemma ConfirmKeeps(t: Tables, c: CommitmentRow)
    requires AnchorsMatch(t) && c in t.commitments && Retrieved(t, c)
    ensures AnchorsMatch(Confirm(t, c))
  {
    var u := Confirm(t, c);
    MarkedRows(t.commitments, CommitmentKey(c));
    UpsertRows(AnchorKey, t.anchors, AnchorFor(c));
    forall a | a in u.anchors && a.status == Confirmed
      ensures Backed(u, a)
    {
      ConfirmBacks(t, c, a);
    }
    forall d | d in u.commitments && d.resolved
      ensures Published(u, d) && Retrieved(u, d)
    {
      ConfirmPublishes(t, c, d);
    }
  }

  lemma ConfirmBacks(t: Tables, c: CommitmentRow, a: Anchor)
    requires AnchorsMatch(t) && c in t.commitments && a in Confirm(t, c).anchors && a.status == Confirmed
    ensures Backed(Confirm(t, c), a)
  {
    var u := Confirm(t, c);
    var point, anchor := CommitmentKey(c), AnchorFor(c);
    MarkedRows(t.commitments, point);
    UpsertRows(AnchorKey, t.anchors, anchor);
    if a == anchor {
      assert Backs(c.(resolved := true), anchor);
    } else {
      assert Backed(t, a);
      var d :| d in t.commitments && Backs(d, a);
      assert d in u.commitments;
    }
  }

  lemma ConfirmPublishes(t: Tables, c: CommitmentRow, d: CommitmentRow)
    requires AnchorsMatch(t) && c in t.commitments && Retrieved(t, c)
    requires d in Confirm(t, c).commitments && d.resolved
    ensures Published(Confirm(t, c), d) && Retrieved(Confirm(t, c), d)
  {
    var point := CommitmentKey(c);
    MarkedRows(t.commitments, point);
    var e :| e in t.commitments && d == if CommitmentKey(e) == point then e.(resolved := true) else e;
    if CommitmentKey(e) == point {
      SameRow(CommitmentKey, t.commitments, c, e);
      assert Retrieved(t, e);
      ConfirmedPublishes(t, c, d);
    } else {
      assert Retrieved(t, e);
      OtherPublishes(t, c, e);
    }
  }

  lemma ConfirmedPublishes(t: Tables, c: CommitmentRow, d: CommitmentRow)
    requires Unique(AnchorKey, t.anchors) && d == c.(resolved := true)
    ensures Published(Confirm(t, c), d)
  {
    UpsertRows(AnchorKey, t.anchors, AnchorFor(c));
    assert AnchorFor(c) in Confirm(t, c).anchors;
  }

  lemma OtherPublishes(t: Tables, c: CommitmentRow, e: CommitmentRow)
    requires Unique(AnchorKey, t.anchors) && Published(t, e) && CommitmentKey(e) != CommitmentKey(c)
    ensures Published(Confirm(t, c), e)
  {
    UpsertRows(AnchorKey, t.anchors, AnchorFor(c));
    var a :| a in t.anchors && a.status == Confirmed && Backs(e, a);
    assert a in Confirm(t, c).anchors;
  }

  lemma RegisterKeeps(t: Tables, batchId: string, point: Outpoint)
    requires AnchorsMatch(t) && Register(t, batchId, point).Some?
    ensures AnchorsMatch(Register(t, batchId, point).value)
  {
    var c := Matches(t, batchId, point)[0];
    assert c in Matches(t, batchId, point);
    assert c in Where(HasBatchId(batchId), t.commitments);
    assert Retrieved(t, c);
    ConfirmKeeps(t, c);
  }

  /** `register_scanned_anchor` succeeds exactly when the batch is stored, the row is among
      the first 10,000 of its batch and the payload texts agree. */
  lemma RegisterSucceeds(t: Tables, batchId: string, point: Outpoint)
    requires Keyed(t)
    ensures Register(t, batchId, point).Some? <==>
              exists b, c :: && b in t.batches && b.batchId == batchId
                             && c in CommitmentsOf(t.commitments, batchId, COMMITMENT_WINDOW)
                             && CommitmentKey(c) == point && c.payloadHex == b.payloadHex
    ensures Register(t, batchId, point).Some? ==>
              forall c :: c in CommitmentsOf(t.commitments, batchId, COMMITMENT_WINDOW) && CommitmentKey(c) == point ==>
                Register(t, batchId, point).value == Confirm(t, c)
  {
    var rows := CommitmentsOf(t.commitments, batchId, COMMITMENT_WINDOW);
    forall c, d | c in rows && d in rows && CommitmentKey(c) == CommitmentKey(d)
      ensures c == d
    {
      assert c in Where(HasBatchId(batchId), t.commitments) && d in Where(HasBatchId(batchId), t.commitments);
      SameRow(CommitmentKey, t.commitments, c, d);
    }
    var matches := Matches(t, batchId, point);
    assert matches != [] ==> matches[0] in matches;
    if b, c :| && b in t.batches && b.batchId == batchId && c in rows
               && CommitmentKey(c) == point && c.payloadHex == b.payloadHex {
      assert c in matches;
      var known := Row(BatchIdOf, t.batches, batchId);
      SameRow(BatchIdOf, t.batches, b, known.value);
    }
  }

  /** A new unresolved row. */
  lemma NewRowKeeps(t: Tables, c: CommitmentRow)
    requires AnchorsMatch(t) && !c.resolved
    requires forall d :: d in t.commitments ==> CommitmentKey(d) != CommitmentKey(c)
    ensures AddCommitment(t.commitments, c) == t.commitments + [c]
    ensures AnchorsMatch(t.(commitments := t.commitments + [c]))
  {
    var u := t.(commitments := t.commitments + [c]);
    forall a | a in u.anchors && a.status == Confirmed
      ensures Backed(u, a)
    {
      assert Backed(t, a);
      var d :| d in t.commitments && Backs(d, a);
      assert d in u.commitments;
    }
    forall d | d in u.commitments && d.resolved
      ensures Published(u, d) && Retrieved(u, d)
    {
      assert d in t.commitments;
      assert Published(t, d) && Retrieved(t, d);
    }
  }

  lemma WithdrawnAnchors(anchors: seq<Anchor>, points: set<Outpoint>)
    requires Unique(AnchorKey, anchors)
    ensures var u := Update(WithdrawAnchor(points), anchors);
            && Unique(AnchorKey, u)
            && (forall a :: a in anchors && AnchorKey(a) !in points ==> a in u)
            && (forall a :: a in u && AnchorKey(a) in points ==> a.status != Confirmed)
            && (forall a :: a in u && a.status == Confirmed ==> a in anchors)
  {
    var u := Update(WithdrawAnchor(points), anchors);
    UpdateUnique(AnchorKey, WithdrawAnchor(points), anchors);
    forall a | a in anchors && AnchorKey(a) !in points
      ensures a in u
    {
      var i :| 0 <= i < |anchors| && anchors[i] == a;
      assert u[i] == a;
    }
    forall a | a in u
      ensures AnchorKey(a) in points ==> a.status != Confirmed
      ensures a.status == Confirmed ==> a in anchors
    {
      var i :| 0 <= i < |u| && u[i] == a;
      assert anchors[i] in anchors;
    }
  }

  lemma KeptRow(t: Tables, height: int, c: CommitmentRow)
    requires Unique(CommitmentKey, t.commitments) && c in t.commitments
    ensures CommitmentKey(c) in ForgottenPoints(t.commitments, height) <==> c.height > height
    ensures c in Rewind(t, height).commitments <==> c.height <= height
  {
    if c.height > height {
      assert c in Where(Above(height), t.commitments);
    }
    if CommitmentKey(c) in ForgottenPoints(t.commitments, height) {
      var d :| d in Where(Above(height), t.commitments) && CommitmentKey(d) == CommitmentKey(c);
      SameRow(CommitmentKey, t.commitments, c, d);
    }
  }

  /** A rewind withdraws every anchor whose commitment it forgets, and no other. */
  lemma RewindKeeps(t: Tables, height: int)
    requires AnchorsMatch(t)
    ensures AnchorsMatch(Rewind(t, height))
    ensures forall a :: a in Rewind(t, height).anchors && AnchorKey(a) in ForgottenPoints(t.commitments, height) ==>
              a.status != Confirmed
    ensures forall a :: a in t.anchors && AnchorKey(a) !in ForgottenPoints(t.commitments, height) ==>
              a in Rewind(t, height).anchors
  {
    var u, points := Rewind(t, height), ForgottenPoints(t.commitments, height);
    WhereUnique(CommitmentKey, AtMost(height), t.commitments);
    WithdrawnAnchors(t.anchors, points);
    forall a | a in u.anchors && a.status == Confirmed
      ensures Backed(u, a)
    {
      assert Backed(t, a);
      var c :| c in t.commitments && Backs(c, a);
      KeptRow(t, height, c);
    }
    forall c | c in u.commitments && c.resolved
      ensures Published(u, c) && Retrieved(u, c)
    {
      assert c in t.commitments;
      assert Published(t, c) && Retrieved(t, c);
      var a :| a in t.anchors && a.status == Confirmed && Backs(c, a);
      KeptRow(t, height, c);
      assert a in u.anchors;
    }
  }

  /** Storing an anchor that is not confirmed, at an output without a resolved row. */
  lemma UnconfirmedKeeps(t: Tables, a: Anchor)
    requires AnchorsMatch(t) && a.status != Confirmed
    requires forall c :: c in t.commitments && CommitmentKey(c) == AnchorKey(a) ==> !c.resolved
    ensures AnchorsMatch(t.(anchors := AddAnchor(t.anchors, a)))
  {
    var u := t.(anchors := AddAnchor(t.anchors, a));
    UpsertRows(AnchorKey, t.anchors, a);
    forall b | b in u.anchors && b.status == Confirmed
      ensures Backed(u, b)
    {
      assert Backed(t, b);
      var c :| c in t.commitments && Backs(c, b);
      assert c in u.commitments;
    }
    forall c | c in u.commitments && c.resolved
      ensures Published(u, c) && Retrieved(u, c)
    {
      assert Published(t, c) && Retrieved(t, c);
      var b :| b in t.anchors && b.status == Confirmed && Backs(c, b);
      assert b in u.anchors;
    }
  }

  /** Changing the network column of an anchor. */
  lemma RelabelKeeps(t: Tables, a: Anchor, network: string)
    requires AnchorsMatch(t) && a in t.anchors
    ensures AnchorsMatch(t.(anchors := AddAnchor(t.anchors, a.(network := network))))
  {
    var b := a.(network := network);
    var u := t.(anchors := AddAnchor(t.anchors, b));
    UpsertRows(AnchorKey, t.anchors, b);
    forall x | x in u.anchors && x.status == Confirmed
      ensures Backed(u, x)
    {
      var before := if x == b then a else x;
      assert Backed(t, before);
      var c :| c in t.commitments && Backs(c, before);
      assert c in u.commitments && Backs(c, x);
    }
    forall c | c in u.commitments && c.resolved
      ensures Published(u, c) && Retrieved(u, c)
    {
      assert Published(t, c) && Retrieved(t, c);
      var x :| x in t.anchors && x.status == Confirmed && Backs(c, x);
      if AnchorKey(x) == AnchorKey(a) {
        SameRow(AnchorKey, t.anchors, x, a);
        assert b in u.anchors && Backs(c, b);
      } else {
        assert x in u.anchors;
      }
    }
  }

  lemma ImportAnchorKeeps(t: Tables, a: Anchor)
    requires AnchorsMatch(t) && ImportAnchor(t, a).Some?
    ensures AnchorsMatch(ImportAnchor(t, a).value)
  {
    match Row(AnchorKey, t.anchors, AnchorKey(a)) {
      case Some(existing) =>
        if LocallyChecked(existing) {
          RelabelKeeps(t, existing, a.network);
        } else {
          UnpublishedPoint(t, existing);
          UnconfirmedKeeps(t, LocalReference(t, a));
        }
      case None =>
        forall c | c in t.commitments && CommitmentKey(c) == AnchorKey(a)
          ensures !c.resolved
        {
          assert c.resolved ==> Published(t, c);
        }
        UnconfirmedKeeps(t, LocalReference(t, a));
    }
  }

  lemma UnpublishedPoint(t: Tables, existing: Anchor)
    requires AnchorsMatch(t) && existing in t.anchors && existing.status != Confirmed
    ensures forall c :: c in t.commitments && CommitmentKey(c) == AnchorKey(existing) ==> !c.resolved
  {
    forall c | c in t.commitments && CommitmentKey(c) == AnchorKey(existing)
      ensures !c.resolved
    {
      if c.resolved {
        assert Published(t, c);
        var a :| a in t.anchors && a.status == Confirmed && Backs(c, a);
        SameRow(AnchorKey, t.anchors, a, existing);
      }
    }
  }

  /** Records and batches that arrive leave the anchors alone. */
  lemma GrowthKeeps(t: Tables, u: Tables)
    requires AnchorsMatch(t)
    requires u.anchors == t.anchors && u.commitments == t.commitments
    requires Unique(BatchIdOf, u.batches) && forall b :: b in t.batches ==> b in u.batches
    ensures AnchorsMatch(u)
  {
    forall a | a in u.anchors && a.status == Confirmed
      ensures Backed(u, a)
    {
      assert Backed(t, a);
      var c :| c in t.commitments && Backs(c, a);
      assert c in u.commitments;
    }
    forall c | c in u.commitments && c.resolved
      ensures Published(u, c) && Retrieved(u, c)
    {
      assert Published(t, c) && Retrieved(t, c);
      var a :| a in t.anchors && a.status == Confirmed && Backs(c, a);
      assert a in u.anchors;
      var b :| b in t.batches && b.batchId == c.batchId && b.payloadHex == c.payloadHex;
      assert b in u.batches;
    }
  }
}
