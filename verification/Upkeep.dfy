/** What a scan leaves intact, whatever the chain brings: the tables stay well-formed, every
    output keeps an anchor, and which batch an output belongs to changes only where a scanned
    row of a stored batch names it (hap/discovery.py:58-146, hap/storage.py:397-426). */
module Upkeep {
  import opened Bytes
  import opened Batches
  import opened Tables
  import opened AnchorLaws
  import opened ChainIndex
  import opened Runs
  import opened Service

  // ---- the batch an output belongs to ---------------------------------------------

  /** The batch of the anchor with this output. */
  function Owner(anchors: seq<Anchor>, point: Outpoint): Option<string> {
    match Row(AnchorKey, anchors, point)
    case Some(a) => Some(a.batchId)
    case None => None
  }

  lemma OwnerOf(anchors: seq<Anchor>, a: Anchor)
    requires Unique(AnchorKey, anchors) && a in anchors
    ensures Owner(anchors, AnchorKey(a)) == Some(a.batchId)
  {
    SameRow(AnchorKey, anchors, a, Row(AnchorKey, anchors, AnchorKey(a)).value);
  }

  lemma RowAfterUpsert<T(!new), K>(key: T -> K, rows: seq<T>, x: T, k: K)
    ensures Row(key, Upsert(key, rows, x), k) == if k == key(x) then Some(x) else Row(key, rows, k)
  {
    var i, j, r := Find(key, rows, key(x)), Find(key, rows, k), Upsert(key, rows, x);
    assert forall n :: 0 <= n < |rows| && n != i ==> r[n] == rows[n];
    assert k == key(x) ==> key(r[i]) == k;
    assert k != key(x) && j < |rows| ==> key(r[j]) == k;
  }

  lemma OwnerAfterUpsert(anchors: seq<Anchor>, a: Anchor, point: Outpoint)
    ensures Owner(AddAnchor(anchors, a), point) ==
              if point == AnchorKey(a) then Some(a.batchId) else Owner(anchors, point)
  {
    RowAfterUpsert(AnchorKey, anchors, a, point);
  }

  lemma OwnerAfterUpdate(f: Anchor -> Anchor, anchors: seq<Anchor>, point: Outpoint)
    requires forall a :: AnchorKey(f(a)) == AnchorKey(a) && f(a).batchId == a.batchId
    ensures Owner(Update(f, anchors), point) == Owner(anchors, point)
  {
  }

  /** A registration gives its output to its batch and touches no other output. */
  lemma OwnerAfterRegister(t: Tables, batchId: string, at: Outpoint, point: Outpoint)
    requires Register(t, batchId, at).Some?
    ensures Owner(Register(t, batchId, at).value.anchors, point) ==
              if point == at then Some(batchId) else Owner(t.anchors, point)
  {
    RegisteredLinked(t, batchId, at);
    OwnerAfterUpsert(t.anchors, AnchorFor(Matches(t, batchId, at)[0]), point);
  }

  // ---- scanned rows ---------------------------------------------------------------

  /** The batch of an output once these rows were scanned. */
  function OwnerAfter(t: Tables, rows: seq<CommitmentRow>, point: Outpoint): Option<string> {
    if rows == [] then Owner(t.anchors, point)
    else
      var c := rows[|rows| - 1];
      if IsLocal(t, c) && CommitmentKey(c) == point then Some(c.batchId)
      else OwnerAfter(t, rows[..|rows| - 1], point)
  }

  ghost predicate OwnersAfter(t: Tables, rows: seq<CommitmentRow>, u: Tables) {
    forall point :: Owner(u.anchors, point) == OwnerAfter(t, rows, point)
  }

  /** The scan came through these rows: nothing but anchors, commitments and blocks is touched. */
  ghost predicate ScannedThrough(rules: Rules, t: Tables, rows: seq<CommitmentRow>, u: Tables) {
    && u == t.(anchors := u.anchors, commitments := u.commitments, blocks := u.blocks)
    && (Wellformed(rules, t) ==> Wellformed(rules, u))
    && OwnersAfter(t, rows, u)
  }

  lemma NothingScanned(rules: Rules, t: Tables, u: Tables)
    requires u == t.(commitments := u.commitments, blocks := u.blocks)
    ensures ScannedThrough(rules, t, [], u)
  {
    if Wellformed(rules, t) {
      WellformedAside(rules, t, u);
    }
  }

  lemma {:induction false} OwnersAppend(
    t: Tables, a: seq<CommitmentRow>, u: Tables, b: seq<CommitmentRow>, point: Outpoint)
    requires OwnersAfter(t, a, u) && u.batches == t.batches
    ensures OwnerAfter(u, b, point) == OwnerAfter(t, a + b, point)
  {
    if b == [] {
      assert a + b == a;
      assert Owner(u.anchors, point) == OwnerAfter(t, a, point);
    } else {
      OwnersAppend(t, a, u, b[..|b| - 1], point);
      assert (a + b)[..|a + b| - 1] == a + b[..|b| - 1];
    }
  }

  lemma ScannedFurther(
    rules: Rules, t: Tables, a: seq<CommitmentRow>, u: Tables, b: seq<CommitmentRow>, v: Tables)
    requires ScannedThrough(rules, t, a, u) && ScannedThrough(rules, u, b, v)
    ensures ScannedThrough(rules, t, a + b, v)
  {
    forall point
      ensures Owner(v.anchors, point) == OwnerAfter(t, a + b, point)
    {
      OwnersAppend(t, a, u, b, point);
    }
  }

  lemma RowScanned(rules: Rules, t: Tables, c: CommitmentRow, u: Tables)
    requires ScanRow(t, c) == Some(u)
    ensures ScannedThrough(rules, t, [c], u)
  {
    var added := t.(commitments := AddCommitment(t.commitments, c));
    NothingScanned(rules, t, added);
    if IsLocal(t, c) && Wellformed(rules, t) {
      RegisteredWellformed(rules, added, c.batchId, CommitmentKey(c));
    }
    forall point
      ensures Owner(u.anchors, point) == OwnerAfter(t, [c], point)
    {
      assert [c][..0] == [];
      if IsLocal(t, c) {
        OwnerAfterRegister(added, c.batchId, CommitmentKey(c), point);
      }
    }
  }

  lemma {:induction false} RowsScanned(rules: Rules, t: Tables, rows: seq<CommitmentRow>, u: Tables)
    requires ScanRows(t, rows) == Some(u)
    ensures ScannedThrough(rules, t, rows, u)
  {
    if rows == [] {
      NothingScanned(rules, t, u);
    } else {
      var n := |rows| - 1;
      var middle := ScanRows(t, rows[..n]).value;
      RowsScanned(rules, t, rows[..n], middle);
      RowScanned(rules, middle, rows[n], u);
      ScannedFurther(rules, t, rows[..n], middle, [rows[n]], u);
      assert rows == rows[..n] + [rows[n]];
    }
  }

  lemma BlockScanned(rules: Rules, t: Tables, network: string, chain: Chain, h: nat, u: Tables)
    requires h < |chain| && ScanBlock(t, network, chain, h) == Some(u)
    ensures ScannedThrough(rules, t, RowsAt(network, chain, h), u)
  {
    var rows := RowsAt(network, chain, h);
    var middle := ScanRows(t, rows).value;
    RowsScanned(rules, t, rows, middle);
    NothingScanned(rules, middle, u);
    ScannedFurther(rules, t, rows, middle, [], u);
    assert rows + [] == rows;
  }

  lemma OneMoreScanned(
    rules: Rules, t: Tables, rows: seq<CommitmentRow>, u: Tables, network: string, chain: Chain, h: nat, v: Tables,
    all: seq<CommitmentRow>)
    requires ScannedThrough(rules, t, rows, u) && h < |chain| && ScanBlock(u, network, chain, h) == Some(v)
    requires all == rows + RowsAt(network, chain, h)
    ensures ScannedThrough(rules, t, all, v)
  {
    BlockScanned(rules, u, network, chain, h, v);
    ScannedFurther(rules, t, rows, u, RowsAt(network, chain, h), v);
  }

  lemma LastBlock(t: Tables, network: string, chain: Chain, lo: nat, h: nat, hi: nat) returns (middle: Option<Tables>)
    requires lo <= h < |chain| && hi == h + 1 && ScanBlocks(t, network, chain, lo, hi).Some?
    ensures middle.Some? && middle == ScanBlocks(t, network, chain, lo, h)
    ensures ScanBlocks(t, network, chain, lo, hi) == ScanBlock(middle.value, network, chain, h)
  {
    middle := ScanBlocks(t, network, chain, lo, h);
  }

  lemma {:induction false} BlocksScanned(
    rules: Rules, t: Tables, network: string, chain: Chain, lo: nat, hi: nat, u: Tables)
    requires lo <= hi <= |chain| && ScanBlocks(t, network, chain, lo, hi) == Some(u)
    ensures ScannedThrough(rules, t, ChainRows(network, chain, lo, hi), u)
  {
    if lo == hi {
      NothingScanned(rules, t, u);
    } else {
      var h := hi - 1;
      var middle := LastBlock(t, network, chain, lo, h, hi);
      BlocksScanned(rules, t, network, chain, lo, h, middle.value);
      OneMoreBlock(network, chain, lo, h, hi);
      OneMoreScanned(rules, t, ChainRows(network, chain, lo, h), middle.value, network, chain, h, u,
                     ChainRows(network, chain, lo, hi));
    }
  }

  // ---- rewinding ------------------------------------------------------------------

  lemma RewindWellformed(rules: Rules, t: Tables, height: int)
    requires Wellformed(rules, t)
    ensures Wellformed(rules, Rewind(t, height))
  {
    var f := WithdrawAnchor(ForgottenPoints(t.commitments, height));
    var middle := t.(anchors := Update(f, t.anchors));
    UpdateUnique(AnchorKey, f, t.anchors);
    WithdrawnLinked(t, f);
    WellformedAside(rules, middle, Rewind(t, height));
  }

  lemma WithdrawnLinked(t: Tables, f: Anchor -> Anchor)
    requires RowsLinked(t) && forall a :: f(a).batchId == a.batchId
    ensures RowsLinked(t.(anchors := Update(f, t.anchors)))
  {
    var u := t.(anchors := Update(f, t.anchors));
    forall a | a in u.anchors
      ensures AnchorLinked(u, a)
    {
      var i :| 0 <= i < |u.anchors| && u.anchors[i] == a;
      assert AnchorLinked(t, t.anchors[i]);
    }
  }

  lemma RewindScanned(rules: Rules, t: Tables, height: int)
    ensures ScannedThrough(rules, t, [], Rewind(t, height))
  {
    if Wellformed(rules, t) {
      RewindWellformed(rules, t, height);
    }
    forall point
      ensures Owner(Rewind(t, height).anchors, point) == Owner(t.anchors, point)
    {
      OwnerAfterUpdate(WithdrawAnchor(ForgottenPoints(t.commitments, height)), t.anchors, point);
    }
  }

  lemma PreparedScanned(rules: Rules, t: Tables, start: int, input: ScanInput)
    ensures ScannedThrough(rules, t, [], Prepare(t, start, input).base)
  {
    var plan := Prepare(t, start, input);
    if plan.rewound.Some? {
      RewindScanned(rules, t, plan.rewound.value);
    } else {
      NothingScanned(rules, t, t);
    }
  }

  // ---- the whole scan -------------------------------------------------------------

  /** The rows of the blocks that a scan reads. */
  function RowsRead(t: Tables, network: string, start: int, input: ScanInput): seq<CommitmentRow> {
    var next := Prepare(t, start, input).next;
    if next >= |input.chain| then [] else ChainRows(network, input.chain, next, StopAt(next, input))
  }

  lemma ScanComesThrough(rules: Rules, t: Tables, network: string, start: int, input: ScanInput, u: Tables)
    requires Scan(t, network, start, input) == Some(u)
    ensures ScannedThrough(rules, t, RowsRead(t, network, start, input), u)
  {
    var plan := Prepare(t, start, input);
    PreparedScanned(rules, t, start, input);
    if plan.next < |input.chain| {
      var rows := RowsRead(t, network, start, input);
      BlocksScanned(rules, plan.base, network, input.chain, plan.next, StopAt(plan.next, input), u);
      ScannedFurther(rules, t, [], plan.base, rows, u);
      assert [] + rows == rows;
    }
  }

  /** A scan keeps the tables well-formed, over every chain and for every way of being cut short. */
  lemma ScanKeepsWellformed(rules: Rules, t: Tables, network: string, start: int, input: ScanInput)
    requires Wellformed(rules, t) && Scan(t, network, start, input).Some?
    ensures Wellformed(rules, Scan(t, network, start, input).value)
  {
    ScanComesThrough(rules, t, network, start, input, Scan(t, network, start, input).value);
  }
}
