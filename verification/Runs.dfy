/** A whole scan, and every run of the node over a chain that changes between calls. */
module Runs {
  import opened Bytes
  import opened Hex
  import opened Bitcoin
  import opened Batches
  import opened Packages
  import opened Tables
  import opened AnchorLaws
  import opened ChainIndex
  import opened ScanLaws

  // ---- one scan -------------------------------------------------------------------

  /** What one call of `scan_bitcoin` finds outside: the active chain, which hash queries are
      answered, and after how many blocks the connection breaks. */
  datatype ScanInput = ScanInput(chain: Chain, tipAnswered: bool, answered: nat -> bool, served: nat, maxBlocks: int)

  function Max(a: int, b: int): int {
    if a < b then b else a
  }

  function Min(a: int, b: int): int {
    if a < b then a else b
  }

  /** The first height that is ever scanned. */
  function First(start: int): nat {
    Max(0, start)
  }

  ghost predicate IsLargest(s: set<nat>, m: nat) {
    m in s && forall x :: x in s ==> x <= m
  }

  lemma {:induction false} LargestExists(s: set<nat>)
    requires s != {}
    ensures exists m :: IsLargest(s, m)
  {
    var x :| x in s;
    var others := s - {x};
    assert s == others + {x};
    if others == {} {
      assert IsLargest(s, x);
    } else {
      LargestExists(others);
      var rest :| IsLargest(others, rest);
      assert IsLargest(s, if rest < x then x else rest);
    }
  }

  lemma LargestKey(s: set<nat>)
    requires s != {}
    ensures exists m :: m in s && forall x :: x in s ==> x <= m
  {
    LargestExists(s);
    var m :| IsLargest(s, m);
  }

  /** `latest_scanned_block`. */
  function LatestHeight(blocks: map<nat, BlockRow>): (r: Option<nat>)
    ensures r.None? <==> |blocks| == 0
    ensures r.Some? ==> r.value in blocks && forall h :: h in blocks ==> h <= r.value
  {
    if |blocks| == 0 then None
    else
      assert |blocks.Keys| == |blocks|;
      LargestKey(blocks.Keys);
      var h :| h in blocks && forall k :: k in blocks ==> k <= h;
      Some(h)
  }

  /** A stored block that the node still reports, and with the same hash. */
  predicate StillActive(blocks: map<nat, BlockRow>, input: ScanInput, h: nat) {
    h in blocks && h < |input.chain| && input.answered(h) && input.chain[h].hash == blocks[h].hash
  }

  /** `_find_common_ancestor`: the highest height up to `candidate` that is still active, or -1. */
  function Ancestor(blocks: map<nat, BlockRow>, input: ScanInput, candidate: int): (r: int)
    ensures r == -1 || (0 <= r <= candidate && StillActive(blocks, input, r))
    ensures forall h: nat :: r < h <= candidate ==> !StillActive(blocks, input, h)
    decreases candidate + 1
  {
    if candidate < 0 then -1
    else if StillActive(blocks, input, candidate) then candidate
    else Ancestor(blocks, input, candidate - 1)
  }

  datatype Plan = Plan(base: Tables, next: nat, rewound: Option<int>)

  function RewindTo(t: Tables, start: int, ancestor: int): Plan
    requires ancestor >= -1
  {
    Plan(Rewind(t, ancestor), Max(start, ancestor + 1), Some(ancestor))
  }

  /** The part of `scan_bitcoin` before its loop. */
  function Prepare(t: Tables, start: int, input: ScanInput): Plan {
    var tip := |input.chain| - 1;
    match LatestHeight(t.blocks)
    case None => Plan(t, First(start), None)
    case Some(stored) =>
      if stored > tip then RewindTo(t, start, Ancestor(t.blocks, input, tip))
      else if input.tipAnswered && input.chain[stored].hash == t.blocks[stored].hash then Plan(t, stored + 1, None)
      else RewindTo(t, start, Ancestor(t.blocks, input, stored))
  }

  /** One past the last block the loop reaches, the broken connection included. */
  function StopAt(next: nat, input: ScanInput): (hi: nat)
    requires next < |input.chain|
    ensures next <= hi <= |input.chain|
  {
    Min(next + input.served, Min(|input.chain|, next + Max(1, input.maxBlocks)))
  }

  /** The tables after one call of `scan_bitcoin`; nothing when a registration raises. */
  function Scan(t: Tables, network: string, start: int, input: ScanInput): Option<Tables> {
    var plan := Prepare(t, start, input);
    if plan.next >= |input.chain| then Some(plan.base)
    else ScanBlocks(plan.base, network, input.chain, plan.next, StopAt(plan.next, input))
  }

  /** The part of the active chain that the tables describe afterwards. */
  function ViewAfter(t: Tables, start: int, input: ScanInput): (view: Chain)
    ensures view <= input.chain
  {
    var next := Prepare(t, start, input).next;
    if next >= |input.chain| then input.chain else input.chain[..StopAt(next, input)]
  }

  lemma EmptyIndex(t: Tables, network: string, first: nat, view: Chain, chain: Chain, n: nat)
    requires Inv(t, network, first, view) && |view| <= first
    requires Sound(network, first, chain) && n <= |chain| && n <= first
    ensures Inv(t, network, first, chain[..n])
  {
    SoundPrefix(network, first, chain, n);
    assert BlockTable(view, first) == BlockTable(chain[..n], first);
  }

  lemma LatestIsTip(t: Tables, network: string, first: nat, view: Chain)
    requires Inv(t, network, first, view)
    ensures LatestHeight(t.blocks) == if |view| > first then Some(|view| - 1) else None
  {
    if |view| > first {
      assert |view| - 1 in t.blocks;
    }
  }

  lemma StoredHeights(t: Tables, network: string, first: nat, view: Chain, h: nat)
    requires Inv(t, network, first, view) && h in t.blocks
    ensures first <= h < |view| && t.blocks[h].hash == view[h].hash
  {
  }

  lemma SharedPrefix(view: Chain, chain: Chain, h: nat)
    requires Linked(view, chain) && SameHash(view, chain, h)
    ensures view[..h + 1] == chain[..h + 1]
  {
  }

  /** Rewinding to a block that is still active leaves an exact index of the new chain up to it. */
  lemma RewoundToBlock(t: Tables, network: string, first: nat, view: Chain, input: ScanInput, ancestor: nat)
    requires Inv(t, network, first, view) && Linked(view, input.chain)
    requires StillActive(t.blocks, input, ancestor)
    ensures first <= ancestor < |input.chain|
    ensures Inv(Rewind(t, ancestor), network, first, input.chain[..ancestor + 1])
  {
    StoredHeights(t, network, first, view, ancestor);
    RewindIndexes(t, network, first, view, ancestor);
    SharedPrefix(view, input.chain, ancestor);
  }

  lemma RewoundToNothing(t: Tables, network: string, first: nat, view: Chain, input: ScanInput)
    requires Inv(t, network, first, view) && Sound(network, first, input.chain)
    ensures Inv(Rewind(t, -1), network, first, input.chain[..Min(first, |input.chain|)])
  {
    RewindIndexes(t, network, first, view, -1);
    EmptyIndex(Rewind(t, -1), network, first, view[..0], input.chain, Min(first, |input.chain|));
  }

  ghost predicate Prepared(network: string, start: int, input: ScanInput, plan: Plan) {
    && plan.next >= First(start)
    && Inv(plan.base, network, First(start), input.chain[..Min(plan.next, |input.chain|)])
  }

  /** An exact index of an earlier view, and a chain whose blocks extend each other. */
  ghost predicate ScanReady(t: Tables, network: string, start: int, view: Chain, input: ScanInput) {
    && Inv(t, network, First(start), view)
    && Sound(network, First(start), input.chain)
    && Linked(view, input.chain)
  }

  lemma RewoundIsActive(t: Tables, network: string, start: int, view: Chain, input: ScanInput, ancestor: int)
    requires ScanReady(t, network, start, view, input)
    requires ancestor == -1 || (ancestor >= 0 && StillActive(t.blocks, input, ancestor))
    ensures Prepared(network, start, input, RewindTo(t, start, ancestor))
  {
    if ancestor == -1 {
      RewoundToNothing(t, network, First(start), view, input);
    } else {
      RewoundToBlock(t, network, First(start), view, input, ancestor);
    }
  }

  lemma NothingStored(t: Tables, network: string, start: int, view: Chain, input: ScanInput)
    requires ScanReady(t, network, start, view, input) && LatestHeight(t.blocks).None?
    ensures Prepared(network, start, input, Plan(t, First(start), None))
  {
    LatestIsTip(t, network, First(start), view);
    EmptyIndex(t, network, First(start), view, input.chain, Min(First(start), |input.chain|));
  }

  lemma TipStillActive(t: Tables, network: string, start: int, view: Chain, input: ScanInput, stored: nat)
    requires ScanReady(t, network, start, view, input) && LatestHeight(t.blocks) == Some(stored)
    requires stored < |input.chain| && input.chain[stored].hash == t.blocks[stored].hash
    ensures stored + 1 > First(start) && input.chain[..stored + 1] == view
  {
    LatestIsTip(t, network, First(start), view);
    StoredHeights(t, network, First(start), view, stored);
    SharedPrefix(view, input.chain, stored);
    assert view[..stored + 1] == view;
  }

  /** The tip is stored, answered and unchanged. */
  predicate TipUnchanged(t: Tables, input: ScanInput) {
    match LatestHeight(t.blocks)
    case None => false
    case Some(stored) =>
      stored < |input.chain| && input.tipAnswered && input.chain[stored].hash == t.blocks[stored].hash
  }

  lemma PlanOfTip(t: Tables, start: int, input: ScanInput)
    requires TipUnchanged(t, input)
    ensures Prepare(t, start, input) == Plan(t, LatestHeight(t.blocks).value + 1, None)
  {
  }

  lemma PlanOfReorg(t: Tables, start: int, input: ScanInput)
    requires LatestHeight(t.blocks).Some? && !TipUnchanged(t, input)
    ensures Prepare(t, start, input)
         == RewindTo(t, start, Ancestor(t.blocks, input, Min(LatestHeight(t.blocks).value, |input.chain| - 1)))
  {
  }

  lemma PrepareTip(t: Tables, network: string, start: int, view: Chain, input: ScanInput)
    requires ScanReady(t, network, start, view, input) && TipUnchanged(t, input)
    ensures Prepared(network, start, input, Prepare(t, start, input))
  {
    PlanOfTip(t, start, input);
    TipPrepared(t, network, start, view, input, LatestHeight(t.blocks).value, Prepare(t, start, input));
  }

  lemma TipPrepared(t: Tables, network: string, start: int, view: Chain, input: ScanInput, stored: nat, plan: Plan)
    requires ScanReady(t, network, start, view, input) && LatestHeight(t.blocks) == Some(stored)
    requires stored < |input.chain| && input.chain[stored].hash == t.blocks[stored].hash
    requires plan == Plan(t, stored + 1, None)
    ensures Prepared(network, start, input, plan)
  {
    TipStillActive(t, network, start, view, input, stored);
  }

  lemma PrepareReorg(t: Tables, network: string, start: int, view: Chain, input: ScanInput)
    requires ScanReady(t, network, start, view, input)
    requires LatestHeight(t.blocks).Some? && !TipUnchanged(t, input)
    ensures Prepared(network, start, input, Prepare(t, start, input))
  {
    PlanOfReorg(t, start, input);
    RewoundIsActive(t, network, start, view, input,
      Ancestor(t.blocks, input, Min(LatestHeight(t.blocks).value, |input.chain| - 1)));
  }

  lemma PrepareKeeps(t: Tables, network: string, start: int, view: Chain, input: ScanInput)
    requires ScanReady(t, network, start, view, input)
    ensures Prepared(network, start, input, Prepare(t, start, input))
  {
    if LatestHeight(t.blocks).None? {
      NothingStored(t, network, start, view, input);
    } else if TipUnchanged(t, input) {
      PrepareTip(t, network, start, view, input);
    } else {
      PrepareReorg(t, network, start, view, input);
    }
  }

  lemma PreparedTables(t: Tables, start: int, input: ScanInput)
    ensures var base := Prepare(t, start, input).base;
            base.records == t.records && base.batches == t.batches && base.recordBatches == t.recordBatches
  {
  }

  /** One scan, whatever the chain has become: it never raises on account of the index, and
      afterwards the tables are an exact index of a prefix of the active chain. */
  lemma ScanKeepsIndex(t: Tables, network: string, start: int, view: Chain, input: ScanInput)
    requires ScanReady(t, network, start, view, input)
    ensures Scan(t, network, start, input).Some?
    ensures var u := Scan(t, network, start, input).value;
            && Inv(u, network, First(start), ViewAfter(t, start, input))
            && u.records == t.records && u.batches == t.batches && u.recordBatches == t.recordBatches
  {
    PrepareKeeps(t, network, start, view, input);
    PreparedTables(t, start, input);
    var plan := Prepare(t, start, input);
    if plan.next >= |input.chain| {
      assert input.chain[..|input.chain|] == input.chain;
    } else {
      ScanBlocksKeep(plan.base, network, First(start), input.chain, plan.next, StopAt(plan.next, input));
    }
  }

  /** What the scan adds: the rows of the blocks it read, each resolved exactly when its batch
      was at hand; rows at or below the rewind target keep their flags. */
  lemma ScanRowsAdded(t: Tables, network: string, start: int, view: Chain, input: ScanInput)
    requires ScanReady(t, network, start, view, input)
    ensures Scan(t, network, start, input).Some?
    ensures var plan := Prepare(t, start, input);
            var u := Scan(t, network, start, input).value;
            var hi := if plan.next >= |input.chain| then plan.next else StopAt(plan.next, input);
            && (plan.rewound.None? ==> plan.base.commitments == t.commitments)
            && (plan.rewound.Some? ==> plan.base.commitments == Where(AtMost(plan.rewound.value), t.commitments))
            && u.commitments == plan.base.commitments + FlagAll(t, ChainRows(network, input.chain, plan.next, hi))
  {
    ScanKeepsIndex(t, network, start, view, input);
    PrepareKeeps(t, network, start, view, input);
    var plan := Prepare(t, start, input);
    assert plan.base.batches == t.batches;
    if plan.next >= |input.chain| {
      assert ChainRows(network, input.chain, plan.next, plan.next) == [];
      assert FlagAll(t, []) == [];
    } else {
      var hi := StopAt(plan.next, input);
      var rows := ChainRows(network, input.chain, plan.next, hi);
      ScanBlocksKeep(plan.base, network, First(start), input.chain, plan.next, hi);
      assert FlagAll(plan.base, rows) == FlagAll(t, rows);
    }
  }

  // ---- runs -----------------------------------------------------------------------

  /** The steps of a node that touch the index. A resolve call is growth followed by a
      registration for each commitment; an import is growth followed by anchor references. */
  datatype Event =
    | Scanned(input: ScanInput)
    | Grown
    | Registered(batchId: string, point: Outpoint)
    | Referenced(anchor: Anchor)
    | Broadcasted(anchor: Anchor)

  /** Records and batches were added, each batch valid; nothing was removed. */
  ghost predicate Grows(rules: Rules, t: Tables, u: Tables) {
    && u == t.(records := u.records, batches := u.batches, recordBatches := u.recordBatches)
    && (forall r :: r in t.records ==> r in u.records)
    && (forall b :: b in t.batches ==> b in u.batches)
    && Unique(BatchIdOf, u.batches)
    && RecordBatchesValid(rules, u)
  }

  /** One step other than a scan. */
  ghost predicate LocalStep(rules: Rules, t: Tables, e: Event, u: Tables) {
    match e
    case Scanned(_) => false
    case Grown => Grows(rules, t, u)
    case Registered(batchId, point) => Register(t, batchId, point) == Some(u)
    case Referenced(anchor) => ImportAnchor(t, anchor) == Some(u)
    case Broadcasted(anchor) =>
      // a transaction that has just been made cannot be in the scanned chain
      && anchor.status == Broadcast
      && (forall c :: c in t.commitments ==> CommitmentKey(c) != AnchorKey(anchor))
      && u == t.(anchors := AddAnchor(t.anchors, anchor))
  }

  ghost predicate Next(rules: Rules, network: string, start: int, t: Tables, e: Event, u: Tables) {
    if e.Scanned? then Scan(t, network, start, e.input) == Some(u) else LocalStep(rules, t, e, u)
  }

  ghost predicate IsRun(rules: Rules, network: string, start: int, states: seq<Tables>, events: seq<Event>) {
    && |states| == |events| + 1
    && states[0] == EMPTY
    && forall i :: 0 <= i < |events| ==> Next(rules, network, start, states[i], events[i], states[i + 1])
  }

  /** Every chain that is scanned is sound, and any two of them agree below equal hashes. */
  ghost predicate HonestChains(network: string, start: int, events: seq<Event>) {
    && (forall i :: 0 <= i < |events| && events[i].Scanned? ==> Sound(network, First(start), events[i].input.chain))
    && (forall i, j :: 0 <= i < j < |events| && events[i].Scanned? && events[j].Scanned? ==>
          Linked(events[i].input.chain, events[j].input.chain))
  }

  /** The part of the last scanned chain that the tables describe. */
  ghost function View(start: int, states: seq<Tables>, events: seq<Event>, n: nat): Chain
    requires n <= |events| < |states|
  {
    if n == 0 then []
    else if events[n - 1].Scanned? then ViewAfter(states[n - 1], start, events[n - 1].input)
    else View(start, states, events, n - 1)
  }

  lemma {:induction false} ViewIsScanned(start: int, states: seq<Tables>, events: seq<Event>, n: nat)
    requires n <= |events| < |states|
    ensures View(start, states, events, n) == [] ||
            exists i :: 0 <= i < n && events[i].Scanned? && View(start, states, events, n) <= events[i].input.chain
  {
    if n > 0 && !events[n - 1].Scanned? {
      ViewIsScanned(start, states, events, n - 1);
    }
  }

  lemma LinkedPrefix(view: Chain, a: Chain, b: Chain)
    requires Linked(a, b) && view <= a
    ensures Linked(view, b)
  {
    forall h: nat | SameHash(view, b, h)
      ensures view[..h + 1] == b[..h + 1]
    {
      assert SameHash(a, b, h);
      assert view[..h + 1] == a[..h + 1];
    }
  }

  lemma ViewIsLinked(network: string, start: int, states: seq<Tables>, events: seq<Event>, n: nat)
    requires n < |events| < |states| && HonestChains(network, start, events) && events[n].Scanned?
    ensures Linked(View(start, states, events, n), events[n].input.chain)
  {
    ViewIsScanned(start, states, events, n);
    if View(start, states, events, n) != [] {
      var i :| 0 <= i < n && events[i].Scanned? && View(start, states, events, n) <= events[i].input.chain;
      LinkedPrefix(View(start, states, events, n), events[i].input.chain, events[n].input.chain);
    }
  }

  /** What holds between any two calls. */
  ghost predicate Consistent(rules: Rules, network: string, start: int, t: Tables, view: Chain) {
    Inv(t, network, First(start), view) && RecordBatchesValid(rules, t)
  }

  lemma EmptyIsConsistent(rules: Rules, network: string, start: int)
    ensures Consistent(rules, network, start, EMPTY, [])
  {
    assert ChainRows(network, [], First(start), 0) == [];
    assert BlockTable([], First(start)) == map[];
  }

  /** Every step but a scan leaves blocks and commitment rows as they are, flags aside. */
  lemma OtherStepKeeps(rules: Rules, network: string, start: int, t: Tables, e: Event, u: Tables, view: Chain)
    requires Consistent(rules, network, start, t, view) && LocalStep(rules, t, e, u)
    ensures Consistent(rules, network, start, u, view)
  {
    match e {
      case Grown => GrownKeeps(rules, network, start, t, u, view);
      case Registered(batchId, point) => RegisteredKeeps(rules, network, start, t, batchId, point, view);
      case Referenced(anchor) => AnchorsOnly(rules, network, start, t, u, view, anchor);
      case Broadcasted(anchor) => BroadcastKeeps(rules, network, start, t, anchor, view);
    }
  }

  lemma GrownKeeps(rules: Rules, network: string, start: int, t: Tables, u: Tables, view: Chain)
    requires Consistent(rules, network, start, t, view) && Grows(rules, t, u)
    ensures Consistent(rules, network, start, u, view)
  {
    GrowthKeeps(t, u);
  }

  lemma AnchorsOnly(rules: Rules, network: string, start: int, t: Tables, u: Tables, view: Chain, anchor: Anchor)
    requires Consistent(rules, network, start, t, view) && ImportAnchor(t, anchor) == Some(u)
    ensures Consistent(rules, network, start, u, view)
  {
    ImportAnchorKeeps(t, anchor);
  }

  lemma BroadcastKeeps(rules: Rules, network: string, start: int, t: Tables, anchor: Anchor, view: Chain)
    requires Consistent(rules, network, start, t, view) && anchor.status == Broadcast
    requires forall c :: c in t.commitments ==> CommitmentKey(c) != AnchorKey(anchor)
    ensures Consistent(rules, network, start, t.(anchors := AddAnchor(t.anchors, anchor)), view)
  {
    UnconfirmedKeeps(t, anchor);
  }

  lemma RegisteredKeeps(
    rules: Rules, network: string, start: int, t: Tables, batchId: string, point: Outpoint, view: Chain)
    requires Consistent(rules, network, start, t, view) && Register(t, batchId, point).Some?
    ensures Consistent(rules, network, start, Register(t, batchId, point).value, view)
  {
    RegisterKeeps(t, batchId, point);
    EraseMarked(t.commitments, point);
  }

  lemma EraseMarked(rows: seq<CommitmentRow>, point: Outpoint)
    ensures Erase(MarkResolved(rows, point)) == Erase(rows)
  {
  }

  lemma ScanStepKeeps(rules: Rules, network: string, start: int, t: Tables, input: ScanInput, u: Tables, view: Chain)
    requires Consistent(rules, network, start, t, view)
    requires Sound(network, First(start), input.chain) && Linked(view, input.chain)
    requires Scan(t, network, start, input) == Some(u)
    ensures Consistent(rules, network, start, u, ViewAfter(t, start, input))
  {
    ScanKeepsIndex(t, network, start, view, input);
  }

  /** The run has been consistent up to its `n`-th state. */
  ghost predicate ConsistentAt(
    rules: Rules, network: string, start: int, states: seq<Tables>, events: seq<Event>, n: nat)
    requires n <= |events| < |states|
  {
    Consistent(rules, network, start, states[n], View(start, states, events, n))
  }

  lemma StartKeeps(rules: Rules, network: string, start: int, states: seq<Tables>, events: seq<Event>)
    requires IsRun(rules, network, start, states, events)
    ensures ConsistentAt(rules, network, start, states, events, 0)
  {
    EmptyIsConsistent(rules, network, start);
  }

  lemma StepKeeps(rules: Rules, network: string, start: int, states: seq<Tables>, events: seq<Event>, n: nat)
    requires IsRun(rules, network, start, states, events) && HonestChains(network, start, events)
    requires n < |events| && ConsistentAt(rules, network, start, states, events, n)
    ensures ConsistentAt(rules, network, start, states, events, n + 1)
  {
    var t, e, u, view := states[n], events[n], states[n + 1], View(start, states, events, n);
    assert Next(rules, network, start, t, e, u);
    if e.Scanned? {
      ViewIsLinked(network, start, states, events, n);
      ScanStepKeeps(rules, network, start, t, e.input, u, view);
    } else {
      OtherStepKeeps(rules, network, start, t, e, u, view);
    }
  }

  /** In every run, over a chain that changes arbitrarily between calls and with calls cut
      short, the block table and the commitment table are exactly an index of a prefix of the
      chain scanned last, and confirmed anchors are exactly the resolved commitments. */
  lemma {:induction false} EveryRunKeepsTheIndex(
    rules: Rules, network: string, start: int, states: seq<Tables>, events: seq<Event>, n: nat)
    requires IsRun(rules, network, start, states, events) && HonestChains(network, start, events)
    requires n <= |events|
    ensures ConsistentAt(rules, network, start, states, events, n)
  {
    if n == 0 {
      StartKeeps(rules, network, start, states, events);
    } else {
      EveryRunKeepsTheIndex(rules, network, start, states, events, n - 1);
      StepKeeps(rules, network, start, states, events, n - 1);
    }
  }

  /** In every run no scan raises: the registration it makes always finds its row. */
  lemma NoScanRaises(
    rules: Rules, network: string, start: int, states: seq<Tables>, events: seq<Event>, input: ScanInput)
    requires IsRun(rules, network, start, states, events)
    requires HonestChains(network, start, events + [Scanned(input)])
    ensures Scan(states[|events|], network, start, input).Some?
  {
    var n, longer := |events|, events + [Scanned(input)];
    assert HonestChains(network, start, events) by {
      assert forall i :: 0 <= i < n ==> longer[i] == events[i];
    }
    EveryRunKeepsTheIndex(rules, network, start, states, events, n);
    ViewIsScanned(start, states, events, n);
    var view := View(start, states, events, n);
    assert longer[n] == Scanned(input);
    if view != [] {
      var i :| 0 <= i < n && events[i].Scanned? && view <= events[i].input.chain;
      assert longer[i] == events[i];
      LinkedPrefix(view, events[i].input.chain, input.chain);
    }
    ScanKeepsIndex(states[n], network, start, view, input);
  }

  /** The chain has an output, at a height that is scanned, whose script is the OP_RETURN of
      this very payload, and the payload commits to this batch id. */
  ghost predicate CommittedIn(chain: Chain, first: nat, batchId: string, payloadHex: string) {
    exists h: nat, i: nat, j: nat, d: Digest, t: Byte ::
      && first <= h < |chain| && i < |chain[h].txs| && j < |chain[h].txs[i].outputs|
      && FromHex(chain[h].txs[i].outputs[j].script) == Some([OP_RETURN, 38] + PayloadBytes(d, t))
      && batchId == ToHex(d) && payloadHex == ToHex(PayloadBytes(d, t))
  }

  lemma RowIsInChain(t: Tables, network: string, first: nat, view: Chain, row: CommitmentRow)
    requires Indexes(t, network, first, view) && row in t.commitments
    ensures CommittedIn(view, first, row.batchId, row.payloadHex)
  {
    var n :| 0 <= n < |t.commitments| && t.commitments[n] == row;
    var c := Erase(t.commitments)[n];
    assert c in ChainRows(network, view, first, |view|);
    ChainRowsExactly(network, view, first, |view|, c);
    var h: nat, i: nat, j: nat :| first <= h < |view| && IsOutputOf(network, view, h, i, j, c);
    RowIsCommitment(network, view, h, i, j, c);
  }

  /** Another valid manifest has the same identifier, so two hashed byte strings collide. */
  ghost predicate Collides(sha: HashFunction, b: Batch) {
    exists c: Batch :: ValidBatch(sha, c) && c.batchId == b.batchId && !Separates(sha, BatchInput(c), BatchInput(b))
  }

  lemma AnchoredRow(rules: Rules, t: Tables, recordId: string) returns (stored: Batch, row: CommitmentRow)
    requires AnchorsMatch(t) && RecordBatchesValid(rules, t) && recordId in AnchoredRecordIds(t)
    ensures stored in t.batches && (recordId in stored.recordIds || Collides(rules.sha, stored))
    ensures row in t.commitments && row.batchId == stored.batchId && row.payloadHex == stored.payloadHex
  {
    var k, a :| k in t.recordBatches && a in t.anchors && a.batchId == k.1 && a.status == Confirmed && k.0 == recordId;
    var b: Batch :| ValidBatch(rules.sha, b) && b.batchId == k.1 && k.0 in b.recordIds;
    assert Backed(t, a);
    row :| row in t.commitments && Backs(row, a);
    assert Retrieved(t, row);
    stored :| stored in t.batches && stored.batchId == row.batchId && stored.payloadHex == row.payloadHex;
    if Separates(rules.sha, BatchInput(b), BatchInput(stored)) {
      BatchIdDetermines(rules.sha, b, stored);
    }
  }

  /** What the index says of a record: it is reported anchored only if a stored batch lists it, or
      has the identifier of another manifest, and the payload of that very batch is in a scanned
      block of the view. */
  lemma AnchoredIsCommitted(rules: Rules, network: string, start: int, t: Tables, view: Chain, recordId: string)
    requires Consistent(rules, network, start, t, view) && recordId in AnchoredRecordIds(t)
    ensures exists stored: Batch ::
              && stored in t.batches && ValidBatch(rules.sha, stored)
              && (recordId in stored.recordIds || Collides(rules.sha, stored))
              && CommittedIn(view, First(start), stored.batchId, stored.payloadHex)
  {
    var stored, row := AnchoredRow(rules, t, recordId);
    RowIsInChain(t, network, First(start), view, row);
  }

  /** The block table read off: a contiguous range of heights, every hash active. */
  lemma BlocksAreActive(t: Tables, network: string, start: int, view: Chain, chain: Chain)
    requires Inv(t, network, First(start), view) && view <= chain
    ensures forall h: nat :: h in t.blocks <==> First(start) <= h < |view|
    ensures forall h: nat :: h in t.blocks ==> h < |chain| && t.blocks[h] == BlockRow(chain[h].hash, chain[h].time)
  {
  }
}
