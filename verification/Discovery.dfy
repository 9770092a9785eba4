/** Scanning the chain and resolving what was found (hap/discovery.py). */
module Discovery {
  import opened Bytes
  import opened Hex
  import opened Bitcoin
  import opened Batches
  import opened Packages
  import opened Resolving
  import opened Tables
  import opened AnchorLaws
  import opened ChainIndex
  import opened Runs
  import opened NodeStorage
  import opened Service
  import opened Steps
  import opened Sums
  import opened Upkeep

  datatype ScanResult = ScanResult(
    network: string, startHeight: nat, endHeight: int, blocksScanned: int, commitmentsFound: nat,
    rewindHeight: Option<int>)

  /** How a scan ends: normally, with the connection lost, or by an error of the index. */
  datatype ScanOutcome = Finished(result: ScanResult) | Lost | Raised

  // ---- the common ancestor --------------------------------------------------------

  /** `_find_common_ancestor`. */
  method FindCommonAncestor(storage: Storage, input: ScanInput, height: int) returns (candidate: int)
    requires height >= -1
    ensures candidate == Ancestor(storage.blocks, input, height)
  {
    candidate := height;
    while candidate >= 0
      invariant candidate >= -1
      invariant Ancestor(storage.blocks, input, candidate) == Ancestor(storage.blocks, input, height)
    {
      if candidate !in storage.blocks {
        candidate := candidate - 1;
        continue;
      }
      if candidate >= |input.chain| || !input.answered(candidate) {
        candidate := candidate - 1;
        continue;
      }
      if input.chain[candidate].hash == storage.blocks[candidate].hash {
        return;
      }
      candidate := candidate - 1;
    }
  }

  // ---- one block ------------------------------------------------------------------

  /** Scanning two lists of rows is scanning them one after the other. */
  lemma {:induction false} ScanRowsAppend(t: Tables, a: seq<CommitmentRow>, b: seq<CommitmentRow>)
    ensures ScanRows(t, a + b) ==
              match ScanRows(t, a) { case Some(u) => ScanRows(u, b) case None => None }
  {
    if b == [] {
      assert a + b == a;
    } else {
      var n := |b| - 1;
      ScanRowsAppend(t, a, b[..n]);
      assert (a + b)[..|a + b| - 1] == a + b[..n];
    }
  }

  /** The node's tables, or nothing once a step has raised. */
  ghost predicate Arrives(ok: bool, storage: Storage, expected: Option<Tables>)
    reads storage
  {
    && (ok <==> expected.Some?)
    && (ok ==> storage.State() == expected.value)
  }

  lemma ScanOneRow(t: Tables, row: Option<CommitmentRow>)
    ensures ScanRows(t, Present(row)) ==
              match row { case Some(c) => ScanRow(t, c) case None => Some(t) }
  {
    match row {
      case Some(c) =>
        assert Present(row) == [c] && [c][..0] == [];
      case None =>
    }
  }

  lemma AsideStaysValid(rules: Rules, t: Tables, u: Tables)
    requires u == t.(commitments := u.commitments, blocks := u.blocks)
    ensures Wellformed(rules, t) ==> Wellformed(rules, u)
  {
    if Wellformed(rules, t) {
      WellformedAside(rules, t, u);
    }
  }

  /** The body of the innermost loop of `scan_bitcoin`. */
  method ScanOutput(service: HistoryAnchorService, network: string, height: nat, block: Block, i: nat, j: nat)
    returns (ok: bool, found: nat)
    requires i < |block.txs| && j < |block.txs[i].outputs| && block.txs[i].txid.Some?
    modifies service.storage`anchors, service.storage`commitments
    ensures found == |Present(OutputRow(network, height, block, i, j))|
    ensures Arrives(ok, service.storage,
                    ScanRows(old(service.storage.State()), Present(OutputRow(network, height, block, i, j))))
    ensures old(service.Valid()) ==> service.Valid()
  {
    ghost var row := OutputRow(network, height, block, i, j);
    ScanOneRow(service.storage.State(), row);
    var output := block.txs[i].outputs[j];
    var payloadHex := ExtractPayload(output.script);
    if payloadHex.None? || payloadHex.value == "" {
      return true, 0;
    }
    var payload := DecodeAnchorPayload(payloadHex.value);
    if payload.None? {
      return true, 0;
    }
    var txid, vout, batchId := block.txs[i].txid.value, output.n.GetOr(j), payload.value.manifestHash;
    var commitment := CommitmentRow(
      txid, vout, batchId, payloadHex.value, network, height, block.hash, block.time, false);
    assert row == Some(commitment);
    ghost var before := service.storage.State();
    service.storage.AddCommitment(commitment);
    AsideStaysValid(service.rules, before, service.storage.State());
    ok, found := true, 1;
    var batch := service.storage.FindBatch(batchId);
    if batch.Some? && batch.value.payloadHex == payloadHex.value {
      ok := service.RegisterScannedAnchor(batchId, (txid, vout));
    }
  }

  method ScanTransaction(service: HistoryAnchorService, network: string, height: nat, block: Block, i: nat)
    returns (ok: bool, found: nat)
    requires i < |block.txs|
    modifies service.storage`anchors, service.storage`commitments
    ensures ok ==> found == |TxPart(network, height, block)(i)|
    ensures Arrives(ok, service.storage, ScanRows(old(service.storage.State()), TxPart(network, height, block)(i)))
    ensures old(service.Valid()) ==> service.Valid()
  {
    ok, found := true, 0;
    ghost var before := service.storage.State();
    ghost var part := OutputPart(network, height, block, i);
    if block.txs[i].txid.None? {
      NoTxid(network, height, block, i, |block.txs[i].outputs|);
      return;
    }
    for j := 0 to |block.txs[i].outputs|
      invariant ok && found == |Concat(part, 0, j)|
      invariant Some(service.storage.State()) == ScanRows(before, Concat(part, 0, j))
      invariant old(service.Valid()) ==> service.Valid()
    {
      var more;
      ScanRowsAppend(before, Concat(part, 0, j), part(j));
      assert Concat(part, 0, j + 1) == Concat(part, 0, j) + part(j);
      ok, more := ScanOutput(service, network, height, block, i, j);
      if !ok {
        ConcatStops(before, part, j + 1, |block.txs[i].outputs|);
        return;
      }
      found := found + more;
    }
  }

  lemma {:induction false} NoTxid(network: string, height: nat, block: Block, i: nat, n: nat)
    requires i < |block.txs| && block.txs[i].txid.None?
    ensures Concat(OutputPart(network, height, block, i), 0, n) == []
  {
    if n > 0 {
      NoTxid(network, height, block, i, n - 1);
    }
  }

  /** Once a step has raised, nothing later undoes that. */
  lemma ConcatStops(t: Tables, part: nat -> seq<CommitmentRow>, j: nat, n: nat)
    requires j <= n && ScanRows(t, Concat(part, 0, j)).None?
    ensures ScanRows(t, Concat(part, 0, n)).None?
  {
    ConcatSplit(part, 0, j, n);
    ScanRowsAppend(t, Concat(part, 0, j), Concat(part, j, n));
  }

  /** One turn of the outer loop of `scan_bitcoin`. */
  method ScanOneBlock(service: HistoryAnchorService, network: string, chain: Chain, height: nat)
    returns (ok: bool, found: nat)
    requires height < |chain|
    modifies service.storage`anchors, service.storage`commitments, service.storage`blocks
    ensures ok ==> found == |RowsAt(network, chain, height)|
    ensures Arrives(ok, service.storage, ScanBlock(old(service.storage.State()), network, chain, height))
    ensures old(service.Valid()) ==> service.Valid()
  {
    var block := chain[height];
    ghost var before := service.storage.State();
    ghost var part := TxPart(network, height, block);
    ok, found := true, 0;
    for i := 0 to |block.txs|
      invariant ok && found == |Concat(part, 0, i)|
      invariant Some(service.storage.State()) == ScanRows(before, Concat(part, 0, i))
      invariant old(service.Valid()) ==> service.Valid()
    {
      var more;
      ScanRowsAppend(before, Concat(part, 0, i), part(i));
      assert Concat(part, 0, i + 1) == Concat(part, 0, i) + part(i);
      ok, more := ScanTransaction(service, network, height, block, i);
      if !ok {
        ConcatStops(before, part, i + 1, |block.txs|);
        return;
      }
      found := found + more;
    }
    ghost var scanned := service.storage.State();
    service.storage.AddScannedBlock(height, block.hash, block.time);
    AsideStaysValid(service.rules, scanned, service.storage.State());
  }

  // ---- the whole scan -------------------------------------------------------------

  /** The part of `scan_bitcoin` before its loop. */
  method PrepareScan(storage: Storage, start: int, input: ScanInput) returns (next: nat, rewound: Option<int>)
    modifies storage`anchors, storage`commitments, storage`blocks
    ensures Plan(storage.State(), next, rewound) == Prepare(old(storage.State()), start, input)
  {
    var tip := |input.chain| - 1;
    var latest := LatestHeight(storage.blocks);
    rewound := None;
    if latest.Some? {
      var stored := latest.value;
      if stored <= tip {
        var activeHash := if input.tipAnswered then Some(input.chain[stored].hash) else None;
        if activeHash != Some(storage.blocks[stored].hash) {
          var ancestor := FindCommonAncestor(storage, input, stored);
          storage.RewindBitcoinScan(ancestor);
          rewound := Some(ancestor);
          next := Max(start, ancestor + 1);
        } else {
          next := stored + 1;
        }
      } else {
        var ancestor := FindCommonAncestor(storage, input, tip);
        storage.RewindBitcoinScan(ancestor);
        rewound := Some(ancestor);
        next := Max(start, ancestor + 1);
      }
    } else {
      next := Max(0, start);
    }
  }

  /** The tables at each height of a scan, or nothing from the height on at which it raises. */
  ghost predicate Follows(reaches: nat -> Option<Tables>, network: string, chain: Chain, h: nat)
    requires h < |chain|
  {
    match reaches(h)
    case Some(u) => reaches(h + 1) == ScanBlock(u, network, chain, h)
    case None => reaches(h + 1).None?
  }

  ghost predicate AllFollow(reaches: nat -> Option<Tables>, network: string, chain: Chain, lo: nat) {
    forall h: nat :: lo <= h < |chain| ==> Follows(reaches, network, chain, h)
  }

  lemma {:induction false} NothingStays(reaches: nat -> Option<Tables>, network: string, chain: Chain, lo: nat, hi: nat)
    requires lo <= hi <= |chain| && reaches(lo).None? && AllFollow(reaches, network, chain, lo)
    ensures reaches(hi).None?
    decreases hi - lo
  {
    if lo < hi {
      assert Follows(reaches, network, chain, lo);
      NothingStays(reaches, network, chain, lo + 1, hi);
    }
  }

  ghost function Reaches(t: Tables, network: string, chain: Chain, lo: nat): nat -> Option<Tables> {
    (h: nat) => if h <= |chain| then ScanBlocks(t, network, chain, lo, h) else None
  }

  lemma ReachesFollows(t: Tables, network: string, chain: Chain, lo: nat, h: nat)
    requires lo <= h < |chain|
    ensures Follows(Reaches(t, network, chain, lo), network, chain, h)
  {
  }

  lemma ScanAfter(t: Tables, network: string, start: int, input: ScanInput, plan: Plan, reaches: nat -> Option<Tables>)
    requires Prepare(t, start, input) == plan && reaches == Reaches(plan.base, network, input.chain, plan.next)
    ensures Scan(t, network, start, input) ==
              if plan.next >= |input.chain| then Some(plan.base) else reaches(StopAt(plan.next, input))
    ensures plan.next <= |input.chain| ==> reaches(plan.next) == Some(plan.base)
    ensures AllFollow(reaches, network, input.chain, plan.next)
  {
    forall h: nat | plan.next <= h < |input.chain|
      ensures Follows(reaches, network, input.chain, h)
    {
      ReachesFollows(plan.base, network, input.chain, plan.next, h);
    }
  }

  /** One past the last height the loop is meant to reach. */
  function GoalOf(next: nat, input: ScanInput): int {
    Min(|input.chain|, next + Max(1, input.maxBlocks))
  }

  lemma NothingFollows(reaches: nat -> Option<Tables>, network: string, chain: Chain, lo: nat, mid: nat, hi: nat)
    requires lo <= mid <= hi <= |chain| && reaches(mid).None? && AllFollow(reaches, network, chain, lo)
    ensures reaches(hi).None?
  {
    NothingStays(reaches, network, chain, mid, hi);
  }

  /** The rows up to each height of a scan, counted. */
  ghost function RowsUpTo(network: string, chain: Chain, lo: nat): nat -> nat {
    (h: nat) => |ChainRows(network, chain, lo, h)|
  }

  ghost predicate CountsRows(counts: nat -> nat, network: string, chain: Chain, h: nat) {
    counts(h + 1) == counts(h) + |RowsAt(network, chain, h)|
  }

  ghost predicate AllCount(counts: nat -> nat, network: string, chain: Chain, lo: nat) {
    counts(lo) == 0 && forall h: nat :: lo <= h ==> CountsRows(counts, network, chain, h)
  }

  lemma RowsAreCounted(network: string, chain: Chain, lo: nat)
    ensures AllCount(RowsUpTo(network, chain, lo), network, chain, lo)
  {
    forall h: nat | lo <= h
      ensures CountsRows(RowsUpTo(network, chain, lo), network, chain, h)
    {
      OneMoreBlock(network, chain, lo, h, h + 1);
    }
  }

  /** The loop has arrived at this height. */
  ghost predicate LoopAt(reaches: nat -> Option<Tables>, counts: nat -> nat, height: nat, found: nat, t: Tables) {
    reaches(height) == Some(t) && found == counts(height)
  }

  /** `ScanOneBlock`, counting. */
  method ScanNextBlock(
    service: HistoryAnchorService, network: string, chain: Chain, next: nat, height: nat, found: nat,
    ghost reaches: nat -> Option<Tables>, ghost counts: nat -> nat)
    returns (ok: bool, total: nat)
    requires next <= height < |chain|
    requires AllFollow(reaches, network, chain, next) && AllCount(counts, network, chain, next)
    requires LoopAt(reaches, counts, height, found, service.storage.State())
    modifies service.storage`anchors, service.storage`commitments, service.storage`blocks
    ensures ok ==> LoopAt(reaches, counts, height + 1, total, service.storage.State())
    ensures !ok ==> reaches(height + 1).None?
    ensures old(service.Valid()) ==> service.Valid()
  {
    assert Follows(reaches, network, chain, height);
    assert CountsRows(counts, network, chain, height);
    var more;
    ok, more := ScanOneBlock(service, network, chain, height);
    total := found + more;
  }

  /** How the loop over the blocks from `next` to `end` ends, and with which tables. */
  ghost predicate LoopEnds(
    reaches: nat -> Option<Tables>, counts: nat -> nat, network: string, next: nat, end: nat, rewound: Option<int>,
    input: ScanInput, outcome: ScanOutcome, u: Tables)
    requires next <= end < |input.chain|
  {
    var hi := Min(next + input.served, end + 1);
    match outcome
    case Raised => reaches(hi).None?
    case Lost => reaches(hi) == Some(u) && hi <= end
    case Finished(result) =>
      && reaches(hi) == Some(u) && hi == end + 1
      && result == ScanResult(network, next, end, end + 1 - next, counts(hi), rewound)
  }

  lemma LoopRaised(
    reaches: nat -> Option<Tables>, counts: nat -> nat, network: string, next: nat, end: nat, rewound: Option<int>,
    input: ScanInput, height: nat, u: Tables)
    requires next <= height <= end < |input.chain| && height < next + input.served
    requires AllFollow(reaches, network, input.chain, next) && reaches(height + 1).None?
    ensures LoopEnds(reaches, counts, network, next, end, rewound, input, Raised, u)
  {
    NothingFollows(reaches, network, input.chain, next, height + 1, Min(next + input.served, end + 1));
  }

  lemma LoopLost(
    reaches: nat -> Option<Tables>, counts: nat -> nat, network: string, next: nat, end: nat, rewound: Option<int>,
    input: ScanInput, height: nat, found: nat, u: Tables)
    requires next <= height <= end < |input.chain| && height == next + input.served
    requires LoopAt(reaches, counts, height, found, u)
    ensures LoopEnds(reaches, counts, network, next, end, rewound, input, Lost, u)
  {
  }

  lemma LoopFinished(
    reaches: nat -> Option<Tables>, counts: nat -> nat, network: string, next: nat, end: nat, rewound: Option<int>,
    input: ScanInput, height: nat, found: nat, u: Tables)
    requires next <= end < |input.chain| && height == end + 1 <= next + input.served
    requires LoopAt(reaches, counts, height, found, u)
    ensures LoopEnds(reaches, counts, network, next, end, rewound, input,
                     Finished(ScanResult(network, next, end, end - next + 1, found, rewound)), u)
  {
  }

  /** The loop of `scan_bitcoin`. */
  method ScanLoop(
    service: HistoryAnchorService, network: string, next: nat, end: nat, rewound: Option<int>, input: ScanInput,
    ghost reaches: nat -> Option<Tables>, ghost counts: nat -> nat)
    returns (outcome: ScanOutcome)
    requires next <= end < |input.chain| && reaches(next) == Some(service.storage.State())
    requires AllFollow(reaches, network, input.chain, next) && AllCount(counts, network, input.chain, next)
    modifies service.storage`anchors, service.storage`commitments, service.storage`blocks
    ensures LoopEnds(reaches, counts, network, next, end, rewound, input, outcome, service.storage.State())
    ensures old(service.Valid()) ==> service.Valid()
  {
    var found, height := 0, next;
    outcome := Lost;
    while height <= end && height - next < input.served
      invariant next <= height <= end + 1 && height <= next + input.served && outcome == Lost
      invariant LoopAt(reaches, counts, height, found, service.storage.State())
      invariant old(service.Valid()) ==> service.Valid()
    {
      var ok;
      ok, found := ScanNextBlock(service, network, input.chain, next, height, found, reaches, counts);
      if !ok {
        LoopRaised(reaches, counts, network, next, end, rewound, input, height, service.storage.State());
        outcome := Raised;
        break;
      }
      height := height + 1;
    }
    if outcome == Lost {
      if height <= end {
        LoopLost(reaches, counts, network, next, end, rewound, input, height, found, service.storage.State());
      } else {
        LoopFinished(reaches, counts, network, next, end, rewound, input, height, found, service.storage.State());
        outcome := Finished(ScanResult(network, next, end, end - next + 1, found, rewound));
      }
    }
  }

  /** What one call of `scan_bitcoin` on the tables `t` returns, and the tables it leaves. */
  ghost predicate IsScan(t: Tables, network: string, start: int, input: ScanInput, outcome: ScanOutcome, u: Tables) {
    var plan, scanned := Prepare(t, start, input), Scan(t, network, start, input);
    var hi := Max(plan.next, GoalOf(plan.next, input));
    match outcome
    case Raised => scanned.None?
    case Lost => scanned == Some(u) && plan.next + input.served < hi
    case Finished(result) =>
      && scanned == Some(u) && plan.next + input.served >= hi
      && result == ScanResult(network, plan.next, GoalOf(plan.next, input) - 1, hi - plan.next,
                              |ChainRows(network, input.chain, plan.next, hi)|, plan.rewound)
  }

  lemma NothingToScan(t: Tables, network: string, start: int, input: ScanInput, plan: Plan, u: Tables)
    requires Prepare(t, start, input) == plan && plan.next >= |input.chain| && u == plan.base
    ensures IsScan(t, network, start, input,
                   Finished(ScanResult(network, plan.next, |input.chain| - 1, 0, 0, plan.rewound)), u)
  {
  }

  lemma LoopIsScan(
    t: Tables, network: string, start: int, input: ScanInput, plan: Plan, reaches: nat -> Option<Tables>,
    counts: nat -> nat, end: nat, outcome: ScanOutcome, u: Tables)
    requires Prepare(t, start, input) == plan && plan.next <= end < |input.chain|
    requires counts == RowsUpTo(network, input.chain, plan.next)
    requires Scan(t, network, start, input) == reaches(StopAt(plan.next, input))
    requires end + 1 == GoalOf(plan.next, input)
    requires LoopEnds(reaches, counts, network, plan.next, end, plan.rewound, input, outcome, u)
    ensures IsScan(t, network, start, input, outcome, u)
  {
  }

  /** `scan_bitcoin`. */
  method ScanBitcoin(service: HistoryAnchorService, network: string, start: int, input: ScanInput)
    returns (outcome: ScanOutcome)
    modifies service.storage`anchors, service.storage`commitments, service.storage`blocks
    ensures IsScan(old(service.storage.State()), network, start, input, outcome, service.storage.State())
    ensures old(service.Valid()) ==> service.Valid()
  {
    ghost var t := service.storage.State();
    var next, rewound := PrepareScan(service.storage, start, input);
    ghost var plan := Plan(service.storage.State(), next, rewound);
    PreparedScanned(service.rules, t, start, input);
    ghost var reaches := Reaches(plan.base, network, input.chain, next);
    ghost var counts := RowsUpTo(network, input.chain, next);
    RowsAreCounted(network, input.chain, next);
    ScanAfter(t, network, start, input, plan, reaches);
    var tip := |input.chain| - 1;
    if next > tip {
      NothingToScan(t, network, start, input, plan, service.storage.State());
      return Finished(ScanResult(network, next, tip, 0, 0, rewound));
    }
    var end := Min(tip, next + Max(1, input.maxBlocks) - 1);
    outcome := ScanLoop(service, network, next, end, rewound, input, reaches, counts);
    LoopIsScan(t, network, start, input, plan, reaches, counts, end, outcome, service.storage.State());
  }

  // ---- resolving what was found ---------------------------------------------------

  predicate IsAnswered(answer: CommitmentRow -> Option<Package>, c: CommitmentRow) {
    answer(c).Some?
  }

  /** The positions of the rows that can be resolved, among the first `n`. */
  ghost function Answered(answer: CommitmentRow -> Option<Package>, rows: seq<CommitmentRow>, n: nat): set<nat>
    requires n <= |rows|
  {
    set i: nat | i < n && IsAnswered(answer, rows[i])
  }

  lemma AnsweredNext(answer: CommitmentRow -> Option<Package>, rows: seq<CommitmentRow>, n: nat)
    requires n < |rows|
    ensures Answered(answer, rows, n + 1)
         == Answered(answer, rows, n) + (if IsAnswered(answer, rows[n]) then {n} else {})
  {
  }

  ghost function PointsAt(rows: seq<CommitmentRow>, at: set<nat>): set<Outpoint>
    requires forall i :: i in at ==> i < |rows|
  {
    set i | i in at :: CommitmentKey(rows[i])
  }

  function ResolveRows(points: set<Outpoint>): CommitmentRow -> CommitmentRow {
    (c: CommitmentRow) => if CommitmentKey(c) in points then c.(resolved := true) else c
  }

  lemma MarkOneMore(rows: seq<CommitmentRow>, points: set<Outpoint>, point: Outpoint)
    ensures MarkResolved(Update(ResolveRows(points), rows), point) == Update(ResolveRows(points + {point}), rows)
  {
  }

  lemma MarkNone(rows: seq<CommitmentRow>)
    ensures Update(ResolveRows({}), rows) == rows
  {
  }

  lemma PointsNext(rows: seq<CommitmentRow>, at: set<nat>, n: nat)
    requires n < |rows| && forall i :: i in at ==> i < n
    ensures PointsAt(rows, at + {n}) == PointsAt(rows, at) + {CommitmentKey(rows[n])}
    ensures |at + {n}| == |at| + 1
  {
    assert n in at + {n};
  }

  lemma IndexIsWindowed(t: Tables, network: string, first: nat, view: Chain)
    requires Inv(t, network, first, view)
    ensures Keyed(t) && Windowed(t.commitments)
  {
    forall id
      ensures |Where(HasBatchId(id), t.commitments)| <= COMMITMENT_WINDOW
    {
      ErasedBatch(t.commitments, id);
    }
  }

  /** With an exact index a retrieved batch registers exactly when its payload text is the scanned one. */
  lemma RetrievedRegisters(t: Tables, network: string, first: nat, view: Chain, c: CommitmentRow, b: Batch)
    requires Inv(t, network, first, view) && c in t.commitments && b in t.batches && b.batchId == c.batchId
    ensures Register(t, c.batchId, CommitmentKey(c)).Some? <==> b.payloadHex == c.payloadHex
  {
    IndexIsWindowed(t, network, first, view);
    InWindowRegisters(t, c);
    SameRow(BatchIdOf, t.batches, b, Row(BatchIdOf, t.batches, c.batchId).value);
  }

  /** So, with an exact index, `ResolveCommitments` succeeds exactly when every answered row brings
      no records that wait for each other and has the payload text of its batch. */
  lemma ResolvesWithIndex(
    rules: Rules, network: string, start: int, t: Tables, view: Chain, answer: CommitmentRow -> Option<Package>,
    limit: nat)
    requires Consistent(rules, network, start, t, view) && Answers(rules, answer)
    ensures var rows := Unresolved(t.commitments, limit);
            ResolveAll(t, answer, rows, |rows|).Some? <==> AllResolvable(t, answer, rows, |rows|)
  {
    IndexIsWindowed(t, network, First(start), view);
    ResolvesExactly(rules, t, answer, Unresolved(t.commitments, limit));
  }

  lemma PayloadTextStarts(digest: Digest, commitmentType: Byte)
    ensures ToHex(PayloadBytes(digest, commitmentType)) != "" && ToHex(PayloadBytes(digest, commitmentType))[0] == '4'
  {
    assert PayloadBytes(digest, commitmentType)[0] == 0x48;
  }

  lemma CommittedSpelling(view: Chain, first: nat, batchId: string, payloadHex: string)
    requires CommittedIn(view, first, batchId, payloadHex)
    ensures payloadHex != "" && payloadHex[0] == '4'
  {
    var d: Digest, u: Byte :| payloadHex == ToHex(PayloadBytes(d, u));
    PayloadTextStarts(d, u);
  }

  /** The scanned text is the digits that the node itself would print. */
  lemma ScannedSpelling(t: Tables, network: string, first: nat, view: Chain, c: CommitmentRow)
    requires Inv(t, network, first, view) && c in t.commitments
    ensures c.payloadHex != "" && c.payloadHex[0] == '4'
  {
    RowIsInChain(t, network, first, view, c);
    CommittedSpelling(view, first, c.batchId, c.payloadHex);
  }

  /** So a valid batch whose payload is spelled with white space in front never registers. */
  lemma SpelledNeverRegisters(
    t: Tables, network: string, first: nat, view: Chain, c: CommitmentRow, b: Batch, text: string)
    requires Inv(t, network, first, view) && c in t.commitments && b in t.batches && b.batchId == c.batchId
    requires b.payloadHex == [' '] + text
    ensures Register(t, c.batchId, CommitmentKey(c)).None?
  {
    ScannedSpelling(t, network, first, view, c);
    RetrievedRegisters(t, network, first, view, c, b);
  }

  /** One turn of the loop: import the package, register the row, mark it resolved. */
  method ResolveRow(service: HistoryAnchorService, c: CommitmentRow, p: Package, ghost from: Tables) returns (ok: bool)
    requires service.Valid() && ValidPackage(service.rules, p) && Leads(service.rules, from, service.storage.State())
    modifies service.storage`records, service.storage`batches, service.storage`recordBatches
    modifies service.storage`anchors, service.storage`commitments
    ensures service.Valid() && Leads(service.rules, from, service.storage.State())
    ensures ok <==> ResolveOne(old(service.storage.State()), c, p).Some?
    ensures ok ==> Alike(ResolveOne(old(service.storage.State()), c, p).value, service.storage.State())
    ensures ok ==> service.storage.commitments == MarkResolved(old(service.storage.commitments), CommitmentKey(c))
  {
    var storage := service.storage;
    ghost var before := storage.State();
    ok := ImportForRow(service, p, from);
    if ok {
      ghost var middle := storage.State();
      RegisterAlike(WithPackage(before, p), middle, c.batchId, CommitmentKey(c));
      ok := service.RegisterScannedAnchor(c.batchId, (c.txid, c.vout));
      if ok {
        RegisteredWellformed(service.rules, middle, c.batchId, CommitmentKey(c));
        StepLeads(service.rules, from, middle, Registered(c.batchId, CommitmentKey(c)), storage.State());
        RegisterMarks(middle, c.batchId, CommitmentKey(c));
        storage.MarkCommitmentResolved((c.txid, c.vout));
      }
    }
  }

  method ImportForRow(service: HistoryAnchorService, p: Package, ghost from: Tables) returns (ok: bool)
    requires service.Valid() && ValidPackage(service.rules, p) && Leads(service.rules, from, service.storage.State())
    modifies service.storage`records, service.storage`batches, service.storage`recordBatches
    ensures service.Valid() && Leads(service.rules, from, service.storage.State())
    ensures ok <==> !SomeStuck(old(service.storage.records), p.records)
    ensures ok ==> Alike(WithPackage(old(service.storage.State()), p), service.storage.State())
  {
    ghost var before := service.storage.State();
    var outcome, imported := service.ImportPackage(p);
    ImportIsGrowth(service.rules, before, service.storage.State());
    StepLeads(service.rules, from, before, Grown, service.storage.State());
    ok := outcome != Rejected;
    if ok {
      AddBatchAdds(before.(records := service.storage.records), p.batch);
      ImportedAlike(before, p, service.storage.State());
    }
  }

  lemma RegisterMarks(t: Tables, batchId: string, point: Outpoint)
    requires Register(t, batchId, point).Some?
    ensures var u := Register(t, batchId, point).value;
            && u.commitments == MarkResolved(t.commitments, point)
            && u.(commitments := MarkResolved(u.commitments, point)) == u
  {
    ResolveTwice(t.commitments, point);
  }

  /** The rows that were answered for are resolved now, and no other flag has changed. */
  ghost predicate Resolves(
    t: Tables, answer: CommitmentRow -> Option<Package>, rows: seq<CommitmentRow>, n: nat, u: Tables)
    requires n <= |rows|
  {
    u.commitments == Update(ResolveRows(PointsAt(rows, Answered(answer, rows, n))), t.commitments)
  }

  lemma ResolvesNone(t: Tables, answer: CommitmentRow -> Option<Package>, rows: seq<CommitmentRow>)
    ensures Resolves(t, answer, rows, 0, t)
  {
    assert Answered(answer, rows, 0) == {};
    assert PointsAt(rows, {}) == {};
    MarkNone(t.commitments);
  }

  lemma ResolvesNext(
    t: Tables, answer: CommitmentRow -> Option<Package>, rows: seq<CommitmentRow>, n: nat, u: Tables, v: Tables)
    requires n < |rows| && Resolves(t, answer, rows, n, u)
    requires v.commitments ==
               if answer(rows[n]).Some? then MarkResolved(u.commitments, CommitmentKey(rows[n])) else u.commitments
    ensures Resolves(t, answer, rows, n + 1, v)
    ensures |Answered(answer, rows, n + 1)| == |Answered(answer, rows, n)| + (if answer(rows[n]).Some? then 1 else 0)
  {
    var good := Answered(answer, rows, n);
    AnsweredNext(answer, rows, n);
    if IsAnswered(answer, rows[n]) {
      MarkOneMore(t.commitments, PointsAt(rows, good), CommitmentKey(rows[n]));
      PointsNext(rows, good, n);
    }
  }

  /** The loop has come through the first `n` rows. */
  ghost predicate CameThrough(
    t: Tables, answer: CommitmentRow -> Option<Package>, rows: seq<CommitmentRow>, n: nat, resolved: nat, missing: int,
    u: Tables)
  {
    && n <= |rows| && ResolvedSoFar(t, answer, rows, n, u) && Resolves(t, answer, rows, n, u)
    && resolved == |Answered(answer, rows, n)| && missing == n - resolved
  }

  lemma ComesThrough(
    t: Tables, answer: CommitmentRow -> Option<Package>, rows: seq<CommitmentRow>, n: nat, resolved: nat, missing: int,
    u: Tables, next: nat, nowResolved: nat, nowMissing: int, v: Tables)
    requires n < |rows| && CameThrough(t, answer, rows, n, resolved, missing, u) && next == n + 1
    requires answer(rows[n]).None? ==> v == u && nowResolved == resolved && nowMissing == missing + 1
    requires answer(rows[n]).Some? ==>
               var one := ResolveOne(u, rows[n], answer(rows[n]).value);
               && nowResolved == resolved + 1 && nowMissing == missing
               && one.Some? && Alike(one.value, v)
               && v.commitments == MarkResolved(u.commitments, CommitmentKey(rows[n]))
    ensures CameThrough(t, answer, rows, next, nowResolved, nowMissing, v)
  {
    ResolveGoesOn(t, answer, rows, n, u, v);
    ResolvesNext(t, answer, rows, n, u, v);
  }

  /** One turn of the loop of `resolve_commitments`. */
  method ResolveTurn(
    service: HistoryAnchorService, answer: CommitmentRow -> Option<Package>, rows: seq<CommitmentRow>, i: nat,
    resolved: nat, missing: nat, ghost before: Tables)
    returns (ok: bool, nowResolved: nat, nowMissing: nat)
    requires service.Valid() && Answers(service.rules, answer) && i < |rows|
    requires Leads(service.rules, before, service.storage.State())
    requires CameThrough(before, answer, rows, i, resolved, missing, service.storage.State())
    modifies service.storage`records, service.storage`batches, service.storage`recordBatches
    modifies service.storage`anchors, service.storage`commitments
    ensures service.Valid() && Leads(service.rules, before, service.storage.State())
    ensures ok ==> CameThrough(before, answer, rows, i + 1, nowResolved, nowMissing, service.storage.State())
    ensures !ok ==> ResolveAll(before, answer, rows, |rows|).None?
  {
    ghost var u := service.storage.State();
    var package := answer(rows[i]);
    ok, nowResolved, nowMissing := true, resolved, missing;
    if package.None? {
      nowMissing := missing + 1;
    } else {
      ok := ResolveRow(service, rows[i], package.value, before);
      nowResolved := resolved + 1;
    }
    if ok {
      ComesThrough(before, answer, rows, i, resolved, missing, u, i + 1, nowResolved, nowMissing,
                   service.storage.State());
    } else {
      ResolveStops(before, answer, rows, i, u);
    }
  }

  /** `resolve_commitments`. */
  method ResolveCommitments(service: HistoryAnchorService, answer: CommitmentRow -> Option<Package>, limit: nat)
    returns (ok: bool, resolved: nat, missing: nat)
    requires service.Valid() && Answers(service.rules, answer)
    modifies service.storage`records, service.storage`batches, service.storage`recordBatches
    modifies service.storage`anchors, service.storage`commitments
    ensures service.Valid()
    ensures Leads(service.rules, old(service.storage.State()), service.storage.State())
    ensures var rows := Unresolved(old(service.storage.commitments), limit);
            var resolution := ResolveAll(old(service.storage.State()), answer, rows, |rows|);
            && (ok <==> resolution.Some?)
            && (ok ==> Alike(resolution.value, service.storage.State()))
    ensures ok ==>
              var rows := Unresolved(old(service.storage.commitments), limit);
              && resolved == |Answered(answer, rows, |rows|)| && missing == |rows| - resolved
              && Resolves(old(service.storage.State()), answer, rows, |rows|, service.storage.State())
  {
    var storage := service.storage;
    var rows := Unresolved(storage.commitments, limit);
    ghost var before := storage.State();
    ok, resolved, missing := true, 0, 0;
    NoStepLeads(service.rules, before);
    ResolvesNone(before, answer, rows);
    var i := 0;
    while i < |rows| && ok
      invariant service.Valid() && Leads(service.rules, before, storage.State())
      invariant 0 <= i <= |rows|
      invariant ok ==> CameThrough(before, answer, rows, i, resolved, missing, storage.State())
      invariant !ok ==> ResolveAll(before, answer, rows, |rows|).None?
    {
      ok, resolved, missing := ResolveTurn(service, answer, rows, i, resolved, missing, before);
      i := i + 1;
    }
  }
}
