/** One scan of the active chain keeps the index exact, and so does every run of the node. */
module ScanLaws {
  import opened Bytes
  import opened Tables
  import opened AnchorLaws
  import opened Sums
  import opened ChainIndex

  // ---- scanning rows --------------------------------------------------------------

  ghost predicate Fits(rows: seq<CommitmentRow>) {
    forall id :: |Where(HasBatchId(id), rows)| <= COMMITMENT_WINDOW
  }

  /** Rows that may be scanned next: new, unresolved, and not too many for one batch. */
  ghost predicate Scannable(t: Tables, rows: seq<CommitmentRow>) {
    && (forall c :: c in rows ==> !c.resolved)
    && Unique(CommitmentKey, Erase(t.commitments) + rows)
    && Fits(Erase(t.commitments) + rows)
  }

  function FlagAll(t: Tables, rows: seq<CommitmentRow>): (r: seq<CommitmentRow>)
    ensures |r| == |rows| && forall i :: 0 <= i < |rows| ==> r[i] == Flagged(t, rows[i])
  {
    seq(|rows|, i requires 0 <= i < |rows| => Flagged(t, rows[i]))
  }

  lemma FitsPrefix(a: seq<CommitmentRow>, b: seq<CommitmentRow>)
    requires Fits(a + b)
    ensures Fits(a)
  {
    forall id
      ensures |Where(HasBatchId(id), a)| <= COMMITMENT_WINDOW
    {
      WhereAppend(HasBatchId(id), a, b);
    }
  }

  lemma ScannablePrefix(t: Tables, rows: seq<CommitmentRow>, n: nat)
    requires Scannable(t, rows) && n <= |rows|
    ensures Scannable(t, rows[..n])
  {
    var base := Erase(t.commitments);
    assert base + rows == (base + rows[..n]) + rows[n..];
    FitsPrefix(base + rows[..n], rows[n..]);
    forall i, j | 0 <= i < j < |base + rows[..n]|
      ensures CommitmentKey((base + rows[..n])[i]) != CommitmentKey((base + rows[..n])[j])
    {
      assert (base + rows)[i] == (base + rows[..n])[i] && (base + rows)[j] == (base + rows[..n])[j];
    }
  }

  lemma NextRow(t: Tables, rows: seq<CommitmentRow>, u: Tables)
    requires rows != [] && Scannable(t, rows)
    requires Erase(u.commitments) == Erase(t.commitments) + rows[..|rows| - 1]
    ensures var c := rows[|rows| - 1];
            && (forall d :: d in u.commitments ==> CommitmentKey(d) != CommitmentKey(c))
            && |Where(HasBatchId(c.batchId), u.commitments + [c])| <= COMMITMENT_WINDOW
  {
    var c := rows[|rows| - 1];
    var all := Erase(t.commitments) + rows;
    assert Erase(u.commitments + [c]) == all by {
      assert Erase(u.commitments + [c]) == Erase(u.commitments) + [c];
      assert rows == rows[..|rows| - 1] + [c];
    }
    ErasedBatch(u.commitments + [c], c.batchId);
    forall d | d in u.commitments
      ensures CommitmentKey(d) != CommitmentKey(c)
    {
      var i :| 0 <= i < |u.commitments| && u.commitments[i] == d;
      assert CommitmentKey(all[i]) == CommitmentKey(d) && all[|all| - 1] == c;
    }
  }

  lemma FlagAllAppend(t: Tables, a: seq<CommitmentRow>, b: seq<CommitmentRow>)
    ensures FlagAll(t, a + b) == FlagAll(t, a) + FlagAll(t, b)
  {
  }

  lemma EraseFlagged(t: Tables, kept: seq<CommitmentRow>, rows: seq<CommitmentRow>)
    requires forall c :: c in rows ==> !c.resolved
    ensures Erase(kept + FlagAll(t, rows)) == Erase(kept) + rows
  {
  }

  /** `u` is `t` after these rows: each appended, resolved exactly when its batch is at hand. */
  ghost predicate Scanned(t: Tables, rows: seq<CommitmentRow>, u: Tables) {
    && AnchorsMatch(u)
    && u.commitments == t.commitments + FlagAll(t, rows)
    && u.blocks == t.blocks
    && u.records == t.records && u.batches == t.batches && u.recordBatches == t.recordBatches
  }

  lemma ScannedJoin(t: Tables, init: seq<CommitmentRow>, u: Tables, c: CommitmentRow, v: Tables)
    requires Scanned(t, init, u) && AnchorsMatch(v)
    requires v == u.(commitments := u.commitments + [Flagged(u, c)], anchors := v.anchors)
    ensures Scanned(t, init + [c], v)
  {
    FlagAllAppend(t, init, [c]);
    assert FlagAll(t, [c]) == [Flagged(u, c)];
  }

  lemma ScannedNext(t: Tables, init: seq<CommitmentRow>, u: Tables, c: CommitmentRow)
    requires Scannable(t, init + [c]) && Scanned(t, init, u)
    ensures ScanRow(u, c).Some? && AnchorsMatch(ScanRow(u, c).value)
    ensures var v := ScanRow(u, c).value;
            v == u.(commitments := u.commitments + [Flagged(u, c)], anchors := v.anchors)
  {
    var rows := init + [c];
    assert rows[..|rows| - 1] == init;
    ScannablePrefix(t, rows, |init|);
    EraseFlagged(t, t.commitments, init);
    NextRow(t, rows, u);
    assert c in rows;
    ScanRowKeeps(u, c);
  }

  /** Scanning these rows does not raise and appends them, flagged. */
  ghost predicate RowsScan(t: Tables, rows: seq<CommitmentRow>) {
    match ScanRows(t, rows)
    case Some(u) => Scanned(t, rows, u)
    case None => false
  }

  lemma NoRowsScan(t: Tables)
    requires AnchorsMatch(t)
    ensures RowsScan(t, [])
  {
    assert t.commitments + FlagAll(t, []) == t.commitments;
  }

  lemma LastRow(t: Tables, init: seq<CommitmentRow>, c: CommitmentRow, u: Tables, v: Option<Tables>)
    requires ScanRows(t, init) == Some(u) && ScanRow(u, c) == v
    ensures ScanRows(t, init + [c]) == v
  {
    assert (init + [c])[..|init + [c]| - 1] == init;
  }

  lemma RowsScanTo(t: Tables, rows: seq<CommitmentRow>, v: Tables)
    requires ScanRows(t, rows) == Some(v) && Scanned(t, rows, v)
    ensures RowsScan(t, rows)
  {
  }

  lemma MoreRowsScan(t: Tables, init: seq<CommitmentRow>, c: CommitmentRow)
    requires Scannable(t, init + [c]) && RowsScan(t, init)
    ensures RowsScan(t, init + [c])
  {
    var u := ScanRows(t, init).value;
    ScannedNext(t, init, u, c);
    var v := ScanRow(u, c);
    ScannedJoin(t, init, u, c, v.value);
    LastRow(t, init, c, u, v);
    RowsScanTo(t, init + [c], v.value);
  }

  lemma {:induction false} ScanRowsKeep(t: Tables, rows: seq<CommitmentRow>)
    requires AnchorsMatch(t) && Scannable(t, rows)
    ensures RowsScan(t, rows)
  {
    if rows == [] {
      NoRowsScan(t);
    } else {
      var init, c := rows[..|rows| - 1], rows[|rows| - 1];
      assert rows == init + [c];
      ScannablePrefix(t, rows, |rows| - 1);
      ScanRowsKeep(t, init);
      MoreRowsScan(t, init, c);
    }
  }

  // ---- scanning blocks ------------------------------------------------------------

  lemma NextBlockRows(t: Tables, network: string, first: nat, chain: Chain, h: nat)
    requires Sound(network, first, chain) && first <= h < |chain|
    requires Inv(t, network, first, chain[..h])
    ensures Scannable(t, RowsAt(network, chain, h))
    ensures Erase(t.commitments) + RowsAt(network, chain, h) == ChainRows(network, chain[..h + 1], first, h + 1)
  {
    var rows := RowsAt(network, chain, h);
    SoundPrefix(network, first, chain, h);
    SoundPrefix(network, first, chain, h + 1);
    assert ChainRows(network, chain, first, h + 1) == ChainRows(network, chain, first, h) + rows;
    FreshRows(network, chain, h);
  }

  lemma FreshRows(network: string, chain: Chain, h: nat)
    ensures forall c :: c in RowsAt(network, chain, h) ==> !c.resolved
  {
    forall c | c in RowsAt(network, chain, h)
      ensures !c.resolved
    {
      RowsAtExactly(network, chain, h, c);
    }
  }

  lemma NextBlockTable(network: string, first: nat, chain: Chain, h: nat)
    requires Sound(network, first, chain) && first <= h < |chain|
    ensures AddScannedBlock(BlockTable(chain[..h], first), h, BlockRow(chain[h].hash, chain[h].time))
         == BlockTable(chain[..h + 1], first)
  {
  }

  lemma SameAnchors(t: Tables, u: Tables)
    requires AnchorsMatch(t)
    requires u.anchors == t.anchors && u.commitments == t.commitments && u.batches == t.batches
    ensures AnchorsMatch(u)
  {
    GrowthKeeps(t, u);
  }

  /** `u` is `t` after the blocks from `lo` to `hi`: an exact index of them, no other table touched. */
  ghost predicate Extended(t: Tables, network: string, first: nat, chain: Chain, lo: nat, hi: nat, u: Tables) {
    && hi <= |chain|
    && Inv(u, network, first, chain[..hi])
    && u.commitments == t.commitments + FlagAll(t, ChainRows(network, chain, lo, hi))
    && u.records == t.records && u.batches == t.batches && u.recordBatches == t.recordBatches
  }

  lemma OneBlock(network: string, chain: Chain, h: nat)
    ensures ChainRows(network, chain, h, h + 1) == RowsAt(network, chain, h)
  {
    var part := BlockPart(network, chain);
    assert Concat(part, h, h) == [];
    assert Concat(part, h, h + 1) == [] + part(h);
  }

  lemma IndexesNext(t: Tables, network: string, first: nat, chain: Chain, h: nat, v: Tables)
    requires Sound(network, first, chain) && first <= h < |chain|
    requires Inv(t, network, first, chain[..h])
    requires v.commitments == t.commitments + FlagAll(t, RowsAt(network, chain, h))
    requires v.blocks == BlockTable(chain[..h + 1], first)
    ensures Indexes(v, network, first, chain[..h + 1])
  {
    var rows := RowsAt(network, chain, h);
    NextBlockRows(t, network, first, chain, h);
    EraseFlagged(t, t.commitments, rows);
  }

  lemma ExtendedJoin(t: Tables, network: string, first: nat, chain: Chain, h: nat, u: Tables, v: Tables)
    requires Sound(network, first, chain) && first <= h < |chain|
    requires Inv(t, network, first, chain[..h])
    requires Scanned(t, RowsAt(network, chain, h), u)
    requires v == u.(blocks := BlockTable(chain[..h + 1], first))
    ensures Extended(t, network, first, chain, h, h + 1, v)
  {
    IndexesNext(t, network, first, chain, h, v);
    SoundPrefix(network, first, chain, h + 1);
    SameAnchors(u, v);
    OneBlock(network, chain, h);
  }

  /** Scanning the next block of the chain never raises and extends the exact index by it. */
  lemma ScanBlockKeeps(t: Tables, network: string, first: nat, chain: Chain, h: nat)
    requires Sound(network, first, chain) && first <= h < |chain|
    requires Inv(t, network, first, chain[..h])
    ensures ScanBlock(t, network, chain, h).Some?
    ensures Extended(t, network, first, chain, h, h + 1, ScanBlock(t, network, chain, h).value)
  {
    var rows := RowsAt(network, chain, h);
    NextBlockRows(t, network, first, chain, h);
    NextBlockTable(network, first, chain, h);
    ScanRowsKeep(t, rows);
    ExtendedJoin(t, network, first, chain, h, ScanRows(t, rows).value, ScanBlock(t, network, chain, h).value);
  }

  lemma ExtendedOneMore(t: Tables, network: string, first: nat, chain: Chain, lo: nat, mid: nat, u: Tables, v: Tables)
    requires lo <= mid < |chain| && Extended(t, network, first, chain, lo, mid, u)
    requires Extended(u, network, first, chain, mid, mid + 1, v)
    ensures Extended(t, network, first, chain, lo, mid + 1, v)
  {
    var a, b := ChainRows(network, chain, lo, mid), ChainRows(network, chain, mid, mid + 1);
    ConcatSplit(BlockPart(network, chain), lo, mid, mid + 1);
    FlagAllAppend(t, a, b);
    FlagsAgree(t, u, b);
    AppendAll(t.commitments, FlagAll(t, a), FlagAll(t, b));
  }

  lemma AppendAll(a: seq<CommitmentRow>, b: seq<CommitmentRow>, c: seq<CommitmentRow>)
    ensures a + b + c == a + (b + c)
  {
  }

  lemma FlagsAgree(t: Tables, u: Tables, rows: seq<CommitmentRow>)
    requires u.batches == t.batches
    ensures FlagAll(u, rows) == FlagAll(t, rows)
  {
  }

  lemma ExtendedByNothing(t: Tables, network: string, first: nat, chain: Chain, lo: nat)
    requires lo <= |chain| && Inv(t, network, first, chain[..lo])
    ensures Extended(t, network, first, chain, lo, lo, t)
  {
    assert ChainRows(network, chain, lo, lo) == [];
    assert t.commitments + FlagAll(t, []) == t.commitments;
  }

  lemma ExtendedByBlock(t: Tables, network: string, first: nat, chain: Chain, lo: nat, mid: nat, u: Tables)
    requires Sound(network, first, chain) && first <= lo <= mid < |chain|
    requires Extended(t, network, first, chain, lo, mid, u)
    ensures ScanBlock(u, network, chain, mid).Some?
    ensures Extended(t, network, first, chain, lo, mid + 1, ScanBlock(u, network, chain, mid).value)
  {
    ScanBlockKeeps(u, network, first, chain, mid);
    ExtendedOneMore(t, network, first, chain, lo, mid, u, ScanBlock(u, network, chain, mid).value);
  }

  /** Scanning these blocks does not raise and extends the exact index by them. */
  ghost predicate BlocksExtend(t: Tables, network: string, first: nat, chain: Chain, lo: nat, hi: nat)
    requires hi <= |chain|
  {
    match ScanBlocks(t, network, chain, lo, hi)
    case Some(u) => Extended(t, network, first, chain, lo, hi, u)
    case None => false
  }

  lemma NoBlocksExtend(t: Tables, network: string, first: nat, chain: Chain, lo: nat)
    requires lo <= |chain| && Inv(t, network, first, chain[..lo])
    ensures BlocksExtend(t, network, first, chain, lo, lo)
  {
    ExtendedByNothing(t, network, first, chain, lo);
  }

  lemma MoreBlocksExtend(t: Tables, network: string, first: nat, chain: Chain, lo: nat, hi: nat)
    requires Sound(network, first, chain) && first <= lo < hi <= |chain|
    requires BlocksExtend(t, network, first, chain, lo, hi - 1)
    ensures BlocksExtend(t, network, first, chain, lo, hi)
  {
    var u := ScanBlocks(t, network, chain, lo, hi - 1).value;
    ExtendedByBlock(t, network, first, chain, lo, hi - 1, u);
    var v := ScanBlock(u, network, chain, hi - 1);
    LastBlock(t, network, chain, lo, hi, u, v);
    BlocksExtendTo(t, network, first, chain, lo, hi, v.value);
  }

  lemma LastBlock(t: Tables, network: string, chain: Chain, lo: nat, hi: nat, u: Tables, v: Option<Tables>)
    requires lo < hi <= |chain| && ScanBlocks(t, network, chain, lo, hi - 1) == Some(u)
    requires ScanBlock(u, network, chain, hi - 1) == v
    ensures ScanBlocks(t, network, chain, lo, hi) == v
  {
  }

  lemma BlocksExtendTo(t: Tables, network: string, first: nat, chain: Chain, lo: nat, hi: nat, v: Tables)
    requires hi <= |chain| && ScanBlocks(t, network, chain, lo, hi) == Some(v)
    requires Extended(t, network, first, chain, lo, hi, v)
    ensures BlocksExtend(t, network, first, chain, lo, hi)
  {
  }

  lemma {:induction false} ScanBlocksKeep(t: Tables, network: string, first: nat, chain: Chain, lo: nat, hi: nat)
    requires Sound(network, first, chain) && first <= lo <= hi <= |chain|
    requires Inv(t, network, first, chain[..lo])
    ensures BlocksExtend(t, network, first, chain, lo, hi)
  {
    if lo == hi {
      NoBlocksExtend(t, network, first, chain, lo);
    } else {
      ScanBlocksKeep(t, network, first, chain, lo, hi - 1);
      MoreBlocksExtend(t, network, first, chain, lo, hi);
    }
  }

  // ---- rewinding ------------------------------------------------------------------

  lemma {:induction false} EraseKept(rows: seq<CommitmentRow>, height: int)
    ensures Erase(Where(AtMost(height), rows)) == Where(AtMost(height), Erase(rows))
  {
    if rows != [] {
      EraseKept(rows[1..], height);
      assert Erase(rows)[1..] == Erase(rows[1..]);
      assert Erase(rows)[0].height == rows[0].height;
      var kept := Where(AtMost(height), rows[1..]);
      assert Erase([rows[0]] + kept) == [Erase(rows)[0]] + Erase(kept);
    }
  }

  lemma RewoundRows(network: string, first: nat, view: Chain, height: int)
    requires -1 <= height < |view|
    ensures Where(AtMost(height), ChainRows(network, view, first, |view|))
         == ChainRows(network, view[..height + 1], first, height + 1)
  {
    var n := height + 1;
    var all := ChainRows(network, view, first, |view|);
    RowHeights(network, view, first, |view|);
    if n < first {
      WhereNone(AtMost(height), all);
    } else {
      var kept, gone := ChainRows(network, view, first, n), ChainRows(network, view, n, |view|);
      ConcatSplit(BlockPart(network, view), first, n, |view|);
      RowHeights(network, view, first, n);
      RowHeights(network, view, n, |view|);
      WhereAppend(AtMost(height), kept, gone);
      WhereAll(AtMost(height), kept);
      WhereNone(AtMost(height), gone);
      RowsOfPrefix(network, view[..n], view, first, n);
    }
  }

  /** A rewind leaves exactly the index of the shorter chain. */
  lemma RewindIndexes(t: Tables, network: string, first: nat, view: Chain, height: int)
    requires Inv(t, network, first, view) && -1 <= height < |view|
    ensures Inv(Rewind(t, height), network, first, view[..height + 1])
  {
    RewindKeeps(t, height);
    EraseKept(t.commitments, height);
    RewoundRows(network, first, view, height);
    SoundPrefix(network, first, view, height + 1);
  }
}
