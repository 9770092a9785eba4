/** The active chain as the node sees it, the commitments in it, and one scan of it
    (hap/discovery.py) as a function from tables to tables. */
module ChainIndex {
  import opened Bytes
  import opened Hex
  import opened Bitcoin
  import opened Tables
  import opened AnchorLaws
  import opened Sums

  /** An output; `n` is its declared number, which may be missing. */
  datatype Output = Output(n: Option<nat>, script: string)

  datatype Tx = Tx(txid: Option<string>, outputs: seq<Output>)

  datatype Block = Block(hash: string, time: int, txs: seq<Tx>)

  type Chain = seq<Block>

  // ---- the commitments in a chain -------------------------------------------------

  /** The row for output `j` of transaction `i`, when there is one and it is a commitment. */
  function OutputRow(network: string, height: nat, block: Block, i: nat, j: nat): Option<CommitmentRow> {
    if i >= |block.txs| || j >= |block.txs[i].outputs| then None
    else
      var output := block.txs[i].outputs[j];
      match (block.txs[i].txid, CommitmentOf(output.script))
      case (Some(txid), Some(found)) =>
        Some(CommitmentRow(txid, output.n.GetOr(j), found.batchId, found.payloadHex, network,
                           height, block.hash, block.time, false))
      case _ => None
  }

  function Present(row: Option<CommitmentRow>): (r: seq<CommitmentRow>)
    ensures forall c :: c in r <==> row == Some(c)
  {
    match row
    case Some(c) => [c]
    case None => []
  }

  function OutputPart(network: string, height: nat, block: Block, i: nat): nat -> seq<CommitmentRow> {
    (j: nat) => Present(OutputRow(network, height, block, i, j))
  }

  /** Rows of the first `j` outputs of transaction `i`. */
  function TxRows(network: string, height: nat, block: Block, i: nat, j: nat): seq<CommitmentRow> {
    Concat(OutputPart(network, height, block, i), 0, j)
  }

  function TxPart(network: string, height: nat, block: Block): nat -> seq<CommitmentRow> {
    (i: nat) => if i < |block.txs| then TxRows(network, height, block, i, |block.txs[i].outputs|) else []
  }

  /** Rows of the first `i` transactions. */
  function BlockRows(network: string, height: nat, block: Block, i: nat): seq<CommitmentRow> {
    Concat(TxPart(network, height, block), 0, i)
  }

  function RowsAt(network: string, chain: Chain, h: nat): seq<CommitmentRow> {
    if h < |chain| then BlockRows(network, h, chain[h], |chain[h].txs|) else []
  }

  function BlockPart(network: string, chain: Chain): nat -> seq<CommitmentRow> {
    (h: nat) => RowsAt(network, chain, h)
  }

  /** Rows of the blocks from `lo` up to but not including `hi`, in chain order. */
  function ChainRows(network: string, chain: Chain, lo: nat, hi: nat): seq<CommitmentRow> {
    Concat(BlockPart(network, chain), lo, hi)
  }

  // ---- what the rows are ----------------------------------------------------------

  lemma OneMoreBlock(network: string, chain: Chain, lo: nat, h: nat, next: nat)
    requires lo <= h && next == h + 1
    ensures ChainRows(network, chain, lo, next) == ChainRows(network, chain, lo, h) + RowsAt(network, chain, h)
  {
  }

  ghost predicate IsOutputOf(network: string, chain: Chain, h: nat, i: nat, j: nat, c: CommitmentRow) {
    h < |chain| && OutputRow(network, h, chain[h], i, j) == Some(c)
  }

  lemma TxRowsExactly(network: string, height: nat, block: Block, i: nat, c: CommitmentRow)
    ensures c in TxPart(network, height, block)(i) <==>
            exists j: nat :: OutputRow(network, height, block, i, j) == Some(c)
  {
    if i < |block.txs| {
      var n, part := |block.txs[i].outputs|, OutputPart(network, height, block, i);
      ConcatMembers(part, 0, n, c);
      if j: nat :| OutputRow(network, height, block, i, j) == Some(c) {
        assert j < n && c in part(j);
      }
    }
  }

  lemma RowsAtExactly(network: string, chain: Chain, h: nat, c: CommitmentRow)
    ensures c in RowsAt(network, chain, h) <==> exists i: nat, j: nat :: IsOutputOf(network, chain, h, i, j, c)
  {
    if h < |chain| {
      var n, part := |chain[h].txs|, TxPart(network, h, chain[h]);
      ConcatMembers(part, 0, n, c);
      if c in RowsAt(network, chain, h) {
        var i: nat :| i < n && c in part(i);
        TxRowsExactly(network, h, chain[h], i, c);
        var j: nat :| OutputRow(network, h, chain[h], i, j) == Some(c);
        assert IsOutputOf(network, chain, h, i, j, c);
      }
      if i: nat, j: nat :| IsOutputOf(network, chain, h, i, j, c) {
        TxRowsExactly(network, h, chain[h], i, c);
        assert i < n && c in part(i);
      }
    }
  }

  /** The rows of a range of blocks are the committing outputs in it, all of them. */
  lemma ChainRowsExactly(network: string, chain: Chain, lo: nat, hi: nat, c: CommitmentRow)
    ensures c in ChainRows(network, chain, lo, hi) <==>
            exists h: nat, i: nat, j: nat :: lo <= h < hi && IsOutputOf(network, chain, h, i, j, c)
  {
    var part := BlockPart(network, chain);
    ConcatMembers(part, lo, hi, c);
    if c in ChainRows(network, chain, lo, hi) {
      var h: nat :| lo <= h < hi && c in part(h);
      RowsAtExactly(network, chain, h, c);
      var i: nat, j: nat :| IsOutputOf(network, chain, h, i, j, c);
    }
    if h: nat, i: nat, j: nat :| lo <= h < hi && IsOutputOf(network, chain, h, i, j, c) {
      RowsAtExactly(network, chain, h, c);
      assert c in part(h);
    }
  }

  /** Every row stands for an output whose script is the one built for its digest. */
  lemma RowIsCommitment(network: string, chain: Chain, h: nat, i: nat, j: nat, c: CommitmentRow)
    requires IsOutputOf(network, chain, h, i, j, c)
    ensures i < |chain[h].txs| && j < |chain[h].txs[i].outputs|
    ensures exists d: Digest, t: Byte ::
              && FromHex(chain[h].txs[i].outputs[j].script) == Some([OP_RETURN, 38] + PayloadBytes(d, t))
              && c.batchId == ToHex(d) && c.payloadHex == ToHex(PayloadBytes(d, t))
    ensures Some(c.txid) == chain[h].txs[i].txid && c.vout == chain[h].txs[i].outputs[j].n.GetOr(j)
    ensures c.height == h && c.blockHash == chain[h].hash && c.blockTime == chain[h].time && c.network == network
  {
    CommitmentScripts(chain[h].txs[i].outputs[j].script);
  }

  lemma RowHeights(network: string, chain: Chain, lo: nat, hi: nat)
    ensures forall c :: c in ChainRows(network, chain, lo, hi) ==> lo <= c.height < hi && !c.resolved
  {
    forall c | c in ChainRows(network, chain, lo, hi)
      ensures lo <= c.height < hi && !c.resolved
    {
      ChainRowsExactly(network, chain, lo, hi, c);
    }
  }

  lemma RowsOfPrefix(network: string, a: Chain, b: Chain, lo: nat, hi: nat)
    requires hi <= |a| && hi <= |b| && a[..hi] == b[..hi]
    ensures ChainRows(network, a, lo, hi) == ChainRows(network, b, lo, hi)
  {
    forall h: nat | lo <= h < hi
      ensures BlockPart(network, a)(h) == BlockPart(network, b)(h)
    {
      assert a[h] == a[..hi][h] && b[h] == b[..hi][h];
    }
    ConcatSame(BlockPart(network, a), BlockPart(network, b), lo, hi);
  }

  // ---- assumptions about chains ---------------------------------------------------

  /** Block hashes are distinct, no output is spent twice under one name, and no batch is
      committed to more often than `register_scanned_anchor` can see. */
  ghost predicate Sound(network: string, first: nat, chain: Chain) {
    && (forall i, j :: 0 <= i < j < |chain| ==> chain[i].hash != chain[j].hash)
    && Unique(CommitmentKey, ChainRows(network, chain, first, |chain|))
    && (forall id :: |Where(HasBatchId(id), ChainRows(network, chain, first, |chain|))| <= COMMITMENT_WINDOW)
  }

  ghost predicate SameHash(a: Chain, b: Chain, h: nat) {
    h < |a| && h < |b| && a[h].hash == b[h].hash
  }

  /** A block hash determines the blocks below it. */
  ghost predicate Linked(a: Chain, b: Chain) {
    forall h: nat :: SameHash(a, b, h) ==> a[..h + 1] == b[..h + 1]
  }

  lemma SoundPrefix(network: string, first: nat, chain: Chain, n: nat)
    requires Sound(network, first, chain) && n <= |chain|
    ensures Sound(network, first, chain[..n])
    ensures ChainRows(network, chain[..n], first, n) == ChainRows(network, chain, first, n)
  {
    var rows, part := ChainRows(network, chain, first, |chain|), ChainRows(network, chain, first, n);
    RowsOfPrefix(network, chain[..n], chain, first, n);
    if first <= n {
      ConcatSplit(BlockPart(network, chain), first, n, |chain|);
      assert part == rows[..|part|];
      var tail := ChainRows(network, chain, n, |chain|);
      forall id
        ensures |Where(HasBatchId(id), part)| <= COMMITMENT_WINDOW
      {
        WhereAppend(HasBatchId(id), part, tail);
      }
    }
  }

  // ---- the invariant --------------------------------------------------------------

  function Erase(rows: seq<CommitmentRow>): (r: seq<CommitmentRow>)
    ensures |r| == |rows| && forall i :: 0 <= i < |rows| ==> r[i] == rows[i].(resolved := false)
  {
    seq(|rows|, i requires 0 <= i < |rows| => rows[i].(resolved := false))
  }

  ghost function BlockTable(chain: Chain, first: nat): map<nat, BlockRow> {
    map h: nat | first <= h < |chain| :: BlockRow(chain[h].hash, chain[h].time)
  }

  /** The block and commitment tables are exactly what a fresh scan of `view` from `first`
      would store; only the `resolved` flags are the node's own. */
  ghost predicate Indexes(t: Tables, network: string, first: nat, view: Chain) {
    && t.blocks == BlockTable(view, first)
    && Erase(t.commitments) == ChainRows(network, view, first, |view|)
  }

  ghost predicate Inv(t: Tables, network: string, first: nat, view: Chain) {
    Sound(network, first, view) && Indexes(t, network, first, view) && AnchorsMatch(t)
  }

  lemma {:induction false} ErasedBatch(rows: seq<CommitmentRow>, id: string)
    ensures |Where(HasBatchId(id), rows)| == |Where(HasBatchId(id), Erase(rows))|
  {
    if rows != [] {
      ErasedBatch(rows[1..], id);
      assert Erase(rows)[1..] == Erase(rows[1..]);
    }
  }

  // ---- one scanned output ---------------------------------------------------------

  function IsLocal(t: Tables, c: CommitmentRow): bool {
    match Row(BatchIdOf, t.batches, c.batchId)
    case Some(batch) => batch.payloadHex == c.payloadHex
    case None => false
  }

  /** `add_commitment`, then `register_scanned_anchor` if the batch is stored with that very
      payload; nothing when the latter raises. */
  function ScanRow(t: Tables, c: CommitmentRow): Option<Tables> {
    var u := t.(commitments := AddCommitment(t.commitments, c));
    if IsLocal(t, c) then Register(u, c.batchId, CommitmentKey(c)) else Some(u)
  }

  function ScanRows(t: Tables, rows: seq<CommitmentRow>): Option<Tables> {
    if rows == [] then Some(t)
    else
      match ScanRows(t, rows[..|rows| - 1])
      case Some(u) => ScanRow(u, rows[|rows| - 1])
      case None => None
  }

  function ScanBlock(t: Tables, network: string, chain: Chain, h: nat): Option<Tables>
    requires h < |chain|
  {
    match ScanRows(t, RowsAt(network, chain, h))
    case Some(u) => Some(u.(blocks := AddScannedBlock(u.blocks, h, BlockRow(chain[h].hash, chain[h].time))))
    case None => None
  }

  function ScanBlocks(t: Tables, network: string, chain: Chain, lo: nat, hi: nat): Option<Tables>
    requires hi <= |chain|
  {
    if hi <= lo then Some(t)
    else
      match ScanBlocks(t, network, chain, lo, hi - 1)
      case Some(u) => ScanBlock(u, network, chain, hi - 1)
      case None => None
  }

  /** The flag a freshly scanned row ends up with. */
  function Flagged(t: Tables, c: CommitmentRow): CommitmentRow {
    c.(resolved := IsLocal(t, c))
  }

  lemma MarkLast(rows: seq<CommitmentRow>, c: CommitmentRow)
    requires forall d :: d in rows ==> CommitmentKey(d) != CommitmentKey(c)
    ensures MarkResolved(rows + [c], CommitmentKey(c)) == rows + [c.(resolved := true)]
  {
    var f := ResolveRow(CommitmentKey(c));
    UpdateAppend(f, rows, [c]);
    assert forall i :: 0 <= i < |rows| ==> rows[i] in rows && f(rows[i]) == rows[i];
    assert Update(f, rows) == rows;
    assert Update(f, [c]) == [c.(resolved := true)];
  }

  /** A new row never makes the scan raise, keeps anchors and commitments in step, and is
      resolved exactly when its batch is at hand. */
  lemma ScanRowKeeps(t: Tables, c: CommitmentRow)
    requires AnchorsMatch(t) && !c.resolved
    requires forall d :: d in t.commitments ==> CommitmentKey(d) != CommitmentKey(c)
    requires |Where(HasBatchId(c.batchId), t.commitments + [c])| <= COMMITMENT_WINDOW
    ensures ScanRow(t, c).Some? && AnchorsMatch(ScanRow(t, c).value)
    ensures var u := ScanRow(t, c).value;
            && u.commitments == t.commitments + [Flagged(t, c)]
            && u.anchors == (if IsLocal(t, c) then AddAnchor(t.anchors, AnchorFor(c)) else t.anchors)
            && u == t.(commitments := u.commitments, anchors := u.anchors)
  {
    var u := t.(commitments := t.commitments + [c]);
    NewRowKeeps(t, c);
    if IsLocal(t, c) {
      assert c in u.commitments;
      assert c in CommitmentsOf(u.commitments, c.batchId, COMMITMENT_WINDOW);
      RegisterSucceeds(u, c.batchId, CommitmentKey(c));
      var b := Row(BatchIdOf, t.batches, c.batchId).value;
      assert Retrieved(u, c);
      ConfirmKeeps(u, c);
      MarkLast(t.commitments, c);
    }
  }

  /** Exactly when the scan would raise on a new row: its batch is stored with that payload and
      ten thousand earlier rows of the batch hide it from `register_scanned_anchor`. */
  lemma ScanRowRaises(t: Tables, c: CommitmentRow)
    requires AnchorsMatch(t) && !c.resolved
    requires forall d :: d in t.commitments ==> CommitmentKey(d) != CommitmentKey(c)
    ensures ScanRow(t, c).None? <==>
              IsLocal(t, c) && |Where(HasBatchId(c.batchId), t.commitments)| >= COMMITMENT_WINDOW
  {
    var earlier := Where(HasBatchId(c.batchId), t.commitments);
    WhereAppend(HasBatchId(c.batchId), t.commitments, [c]);
    assert Where(HasBatchId(c.batchId), t.commitments + [c]) == earlier + [c];
    if |earlier| < COMMITMENT_WINDOW {
      ScanRowKeeps(t, c);
    } else if IsLocal(t, c) {
      var u := t.(commitments := t.commitments + [c]);
      NewRowKeeps(t, c);
      RegisterSucceeds(u, c.batchId, CommitmentKey(c));
      var window := CommitmentsOf(u.commitments, c.batchId, COMMITMENT_WINDOW);
      assert window == earlier[..COMMITMENT_WINDOW];
      forall d | d in window
        ensures CommitmentKey(d) != CommitmentKey(c)
      {
        assert d in earlier;
      }
    }
  }
}
