/** A node's life as its peers see it: calls of `sync_peer` to any number of peers, whose tables
    grow meanwhile, and between them scans, imports and whatever else the node does
    (hap/sync.py:95-194, hap/service.py:487-522, hap/storage.py:397-426). */
module History {
  import opened Bytes
  import opened Hex
  import opened Batches
  import opened Tables
  import opened AnchorLaws
  import opened ChainIndex
  import opened Runs
  import opened NodeStorage
  import opened Service
  import opened Steps
  import opened Upkeep
  import opened Replication

  // ---- where an output comes to another batch -------------------------------------

  /** The output has a real transaction id and belongs to an anchor of another batch. */
  ghost predicate TakesOutput(t: Tables, batchId: string, point: Outpoint) {
    exists a :: a in t.anchors && AnchorKey(a) == point && IsDigestText(a.txid) && a.batchId != batchId
  }

  /** Registration and broadcasting write an anchor without asking whose output it was. */
  ghost predicate Takes(t: Tables, e: Event) {
    match e
    case Scanned(_) => false
    case Grown => false
    case Registered(batchId, point) => TakesOutput(t, batchId, point)
    case Referenced(_) => false
    case Broadcasted(anchor) => TakesOutput(t, anchor.batchId, AnchorKey(anchor))
  }

  lemma AnchorOwned(t: Tables, a: Anchor)
    requires Unique(AnchorKey, t.anchors)
    ensures HasAnchor(t, a) <==> Owner(t.anchors, AnchorKey(a)) == Some(a.batchId)
  {
    if HasAnchor(t, a) {
      var x :| x in t.anchors && AnchorKey(x) == AnchorKey(a) && x.batchId == a.batchId;
      OwnerOf(t.anchors, x);
    }
  }

  lemma OutputOwned(t: Tables, point: Outpoint)
    ensures HasOutput(t, point) <==> Owner(t.anchors, point).Some?
  {
  }

  /** No record or batch has gone, and an output has one anchor. */
  ghost predicate KeepsRows(t: Tables, u: Tables) {
    && (forall r :: r in t.records ==> r in u.records)
    && (forall b :: b in t.batches ==> b in u.batches)
    && Unique(AnchorKey, t.anchors) && Unique(AnchorKey, u.anchors)
  }

  lemma OwnersRemain(t: Tables, u: Tables)
    requires KeepsRows(t, u)
    ensures Remains(t, u) <==>
            forall a :: a in t.anchors && IsDigestText(a.txid) ==> Owner(u.anchors, AnchorKey(a)) == Some(a.batchId)
  {
    forall a | a in t.anchors
      ensures HasAnchor(u, a) <==> Owner(u.anchors, AnchorKey(a)) == Some(a.batchId)
    {
      AnchorOwned(u, a);
    }
  }

  /** One output was given to a batch. */
  ghost predicate Given(t: Tables, batchId: string, point: Outpoint, u: Tables) {
    forall p :: Owner(u.anchors, p) == if p == point then Some(batchId) else Owner(t.anchors, p)
  }

  lemma GivenRemains(t: Tables, batchId: string, point: Outpoint, u: Tables)
    requires KeepsRows(t, u) && Given(t, batchId, point, u)
    ensures Remains(t, u) <==> !TakesOutput(t, batchId, point)
  {
    OwnersRemain(t, u);
    forall a | a in t.anchors
      ensures Owner(t.anchors, AnchorKey(a)) == Some(a.batchId)
    {
      OwnerOf(t.anchors, a);
    }
  }

  lemma AddedIsGiven(t: Tables, a: Anchor, u: Tables)
    requires u.anchors == AddAnchor(t.anchors, a)
    ensures Given(t, a.batchId, AnchorKey(a), u)
  {
    forall p
      ensures Owner(u.anchors, p) == if p == AnchorKey(a) then Some(a.batchId) else Owner(t.anchors, p)
    {
      OwnerAfterUpsert(t.anchors, a, p);
    }
  }

  lemma RegisteredIsGiven(t: Tables, batchId: string, point: Outpoint, u: Tables)
    requires Register(t, batchId, point) == Some(u)
    ensures Given(t, batchId, point, u)
  {
    forall p
      ensures Owner(u.anchors, p) == if p == point then Some(batchId) else Owner(t.anchors, p)
    {
      OwnerAfterRegister(t, batchId, point, p);
    }
  }

  lemma GivenOnward(t: Tables, batchId: string, point: Outpoint, u: Tables)
    requires Given(t, batchId, point, u)
    ensures forall a :: a in t.anchors ==> HasOutput(u, AnchorKey(a))
  {
    forall a | a in t.anchors
      ensures HasOutput(u, AnchorKey(a))
    {
      OutputOwned(t, AnchorKey(a));
      OutputOwned(u, AnchorKey(a));
    }
  }

  lemma OnwardSelf(t: Tables)
    ensures Onward(t, t)
  {
  }

  lemma OnwardFurther(t: Tables, u: Tables, v: Tables)
    requires Onward(t, u) && Onward(u, v)
    ensures Onward(t, v)
  {
    forall a | a in t.anchors
      ensures HasOutput(v, AnchorKey(a))
    {
      assert HasOutput(u, AnchorKey(a));
    }
  }

  lemma StepOnward(rules: Rules, t: Tables, e: Event, u: Tables)
    requires LocalStep(rules, t, e, u)
    ensures Onward(t, u)
  {
    match e {
      case Grown => OnwardSelf(t);
      case Registered(batchId, point) =>
        RegisteredIsGiven(t, batchId, point, u);
        GivenOnward(t, batchId, point, u);
      case Referenced(anchor) =>
        ReferenceOf(t, anchor);
        AddedIsGiven(t, LocalReference(t, anchor), u);
        GivenOnward(t, anchor.batchId, AnchorKey(anchor), u);
      case Broadcasted(anchor) =>
        AddedIsGiven(t, anchor, u);
        GivenOnward(t, anchor.batchId, AnchorKey(anchor), u);
    }
  }

  /** A step other than a scan leaves every output with its batch exactly when it does not write
      an anchor of another batch over one. */
  lemma StepRemains(rules: Rules, t: Tables, e: Event, u: Tables)
    requires Wellformed(rules, t) && Wellformed(rules, u) && LocalStep(rules, t, e, u)
    ensures Remains(t, u) <==> !Takes(t, e)
  {
    match e {
      case Grown =>
      case Registered(batchId, point) =>
        RegisteredIsGiven(t, batchId, point, u);
        GivenRemains(t, batchId, point, u);
      case Referenced(anchor) => ReferenceRemains(rules, t, anchor, u);
      case Broadcasted(anchor) =>
        AddedIsGiven(t, anchor, u);
        GivenRemains(t, anchor.batchId, AnchorKey(anchor), u);
    }
  }

  /** A reference from outside never takes an output from another batch. */
  lemma ReferenceRemains(rules: Rules, t: Tables, anchor: Anchor, u: Tables)
    requires Wellformed(rules, t) && Wellformed(rules, u) && ImportAnchor(t, anchor) == Some(u)
    ensures Remains(t, u)
  {
    ReferenceOf(t, anchor);
    AddedIsGiven(t, LocalReference(t, anchor), u);
    GivenRemains(t, anchor.batchId, AnchorKey(anchor), u);
    forall a | a in t.anchors && AnchorKey(a) == AnchorKey(anchor)
      ensures a.batchId == anchor.batchId
    {
      OwnerOf(t.anchors, a);
    }
  }

  lemma {:induction false} StepsOnward(rules: Rules, states: seq<Tables>, events: seq<Event>, n: nat)
    requires AreSteps(rules, states, events) && n <= |events|
    ensures Onward(states[0], states[n])
  {
    if n == 0 {
      OnwardSelf(states[0]);
    } else {
      StepsOnward(rules, states, events, n - 1);
      StepOnward(rules, states[n - 1], events[n - 1], states[n]);
      OnwardFurther(states[0], states[n - 1], states[n]);
    }
  }

  lemma LeadsOnward(rules: Rules, t: Tables, u: Tables)
    requires Leads(rules, t, u)
    ensures Onward(t, u)
  {
    var states, events :| AreSteps(rules, states, events) && states[0] == t && states[|events|] == u;
    StepsOnward(rules, states, events, |events|);
  }

  // ---- a scan ---------------------------------------------------------------------

  lemma {:induction false} OwnerStays(t: Tables, rows: seq<CommitmentRow>, point: Outpoint)
    requires Owner(t.anchors, point).Some?
    ensures OwnerAfter(t, rows, point).Some?
  {
    if rows != [] {
      OwnerStays(t, rows[..|rows| - 1], point);
    }
  }

  lemma ScanOnward(rules: Rules, t: Tables, network: string, start: int, input: ScanInput, u: Tables)
    requires Scan(t, network, start, input) == Some(u)
    ensures Onward(t, u)
  {
    var rows := RowsRead(t, network, start, input);
    ScanComesThrough(rules, t, network, start, input, u);
    forall a | a in t.anchors
      ensures HasOutput(u, AnchorKey(a))
    {
      OutputOwned(t, AnchorKey(a));
      OutputOwned(u, AnchorKey(a));
      OwnerStays(t, rows, AnchorKey(a));
      assert Owner(u.anchors, AnchorKey(a)) == OwnerAfter(t, rows, AnchorKey(a));
    }
  }

  /** A scanned row that names the output, of a stored batch. */
  ghost predicate Names(t: Tables, rows: seq<CommitmentRow>, c: CommitmentRow, point: Outpoint) {
    c in rows && IsLocal(t, c) && CommitmentKey(c) == point
  }

  /** Where outputs are distinct, the row that names an output decides whose it is. */
  lemma {:induction false} OwnerIs(t: Tables, rows: seq<CommitmentRow>, point: Outpoint)
    requires Unique(CommitmentKey, rows)
    ensures forall c :: Names(t, rows, c, point) ==> OwnerAfter(t, rows, point) == Some(c.batchId)
    ensures (forall c :: !Names(t, rows, c, point)) ==> OwnerAfter(t, rows, point) == Owner(t.anchors, point)
  {
    if rows != [] {
      var n := |rows| - 1;
      var rest := rows[..n];
      OwnerIs(t, rest, point);
      assert rows == rest + [rows[n]];
      assert forall c :: Names(t, rest, c, point) ==> Names(t, rows, c, point);
      forall c | Names(t, rows, c, point)
        ensures c == rows[n] || Names(t, rest, c, point)
      {
      }
      if IsLocal(t, rows[n]) && CommitmentKey(rows[n]) == point {
        assert Names(t, rows, rows[n], point);
        forall c | Names(t, rows, c, point)
          ensures c == rows[n]
        {
          SameRow(CommitmentKey, rows, c, rows[n]);
        }
      }
    }
  }

  /** A scan takes an output when one of the rows it reads names it for another stored batch. */
  ghost predicate ScanTakes(t: Tables, rows: seq<CommitmentRow>) {
    exists c :: c in rows && IsLocal(t, c) && TakesOutput(t, c.batchId, CommitmentKey(c))
  }

  lemma ScanRemains(rules: Rules, t: Tables, network: string, start: int, input: ScanInput, u: Tables)
    requires Wellformed(rules, t) && Scan(t, network, start, input) == Some(u)
    requires Unique(CommitmentKey, RowsRead(t, network, start, input))
    ensures Remains(t, u) <==> !ScanTakes(t, RowsRead(t, network, start, input))
  {
    var rows := RowsRead(t, network, start, input);
    ScanComesThrough(rules, t, network, start, input, u);
    OwnersRemain(t, u);
    RowsRemain(t, rows, u);
  }

  lemma RowsRemain(t: Tables, rows: seq<CommitmentRow>, u: Tables)
    requires Unique(AnchorKey, t.anchors) && Unique(CommitmentKey, rows) && OwnersAfter(t, rows, u)
    ensures ScanTakes(t, rows) <==>
            exists a :: a in t.anchors && IsDigestText(a.txid) && Owner(u.anchors, AnchorKey(a)) != Some(a.batchId)
  {
    if c :| c in rows && IsLocal(t, c) && TakesOutput(t, c.batchId, CommitmentKey(c)) {
      var a :| a in t.anchors && AnchorKey(a) == CommitmentKey(c) && IsDigestText(a.txid) && a.batchId != c.batchId;
      OwnerIs(t, rows, AnchorKey(a));
      assert Names(t, rows, c, AnchorKey(a));
    }
    if a :| a in t.anchors && IsDigestText(a.txid) && Owner(u.anchors, AnchorKey(a)) != Some(a.batchId) {
      OwnerIs(t, rows, AnchorKey(a));
      OwnerOf(t.anchors, a);
      var c :| Names(t, rows, c, AnchorKey(a));
      assert TakesOutput(t, c.batchId, CommitmentKey(c));
    }
  }

  // ---- what that means for a peer's item ------------------------------------------

  /** A reference to the anchor that the node would take from a peer. */
  function ReferenceTo(a: Anchor, b: Batch): Anchor {
    Anchor(a.txid, a.vout, a.batchId, b.network, Unverified, 0, None, None)
  }

  lemma ReferenceIsValid(rules: Rules, a: Anchor, b: Batch)
    requires ValidBatch(rules.sha, b) && b.batchId == a.batchId && IsDigestText(a.txid)
    ensures ValidAnchorReference(ReferenceTo(a, b))
  {
  }

  lemma ReferenceNotTaken(rules: Rules, t: Tables, a: Anchor, b: Batch)
    requires Unique(BatchIdOf, t.batches) && Unique(AnchorKey, t.anchors)
    requires a in t.anchors && b in t.batches && b.batchId == a.batchId && ValidAnchorReference(ReferenceTo(a, b))
    ensures Stored(t, AnchorItem(ReferenceTo(a, b))) && !Refused(rules, t, AnchorItem(ReferenceTo(a, b)))
  {
    forall c | c in t.batches && c.batchId == a.batchId
      ensures c == b
    {
      SameRow(BatchIdOf, t.batches, c, b);
    }
    forall x | x in t.anchors && AnchorKey(x) == AnchorKey(a)
      ensures x == a
    {
      SameRow(AnchorKey, t.anchors, x, a);
    }
  }

  lemma ReferenceAccepted(rules: Rules, t: Tables, a: Anchor) returns (reference: Anchor)
    requires Wellformed(rules, t) && a in t.anchors && IsDigestText(a.txid)
    ensures AnchorKey(reference) == AnchorKey(a) && reference.batchId == a.batchId
    ensures ValidAnchorReference(reference) && Stored(t, AnchorItem(reference))
    ensures !Refused(rules, t, AnchorItem(reference))
  {
    assert AnchorLinked(t, a);
    var b :| b in t.batches && b.batchId == a.batchId;
    reference := ReferenceTo(a, b);
    ReferenceIsValid(rules, a, b);
    ReferenceNotTaken(rules, t, a, b);
  }

  /** Once its output belongs to another batch, the same reference is refused and no longer stored. */
  lemma ReferenceLost(rules: Rules, t: Tables, u: Tables, reference: Anchor)
    requires Wellformed(rules, t) && Wellformed(rules, u) && Onward(t, u)
    requires Stored(t, AnchorItem(reference)) && !HasAnchor(u, reference)
    ensures Refused(rules, u, AnchorItem(reference)) && !Stored(u, AnchorItem(reference))
  {
    SettledOnward(rules, t, u, AnchorItem(reference));
  }

  /** The way every item is settled: refused now and later, or neither now nor later. */
  ghost predicate NoneTurns(rules: Rules, t: Tables, u: Tables) {
    forall item :: Settled(rules, t, item) ==> (Refused(rules, u, item) <==> Refused(rules, t, item))
  }

  lemma SomeTurns(rules: Rules, t: Tables, u: Tables) returns (item: Item)
    requires Wellformed(rules, t) && Wellformed(rules, u) && Onward(t, u) && !Remains(t, u)
    ensures Settled(rules, t, item) && Refused(rules, u, item) && !Refused(rules, t, item)
  {
    var a :| a in t.anchors && IsDigestText(a.txid) && !HasAnchor(u, a);
    var reference := ReferenceAccepted(rules, t, a);
    ReferenceLost(rules, t, u, reference);
    item := AnchorItem(reference);
  }

  /** Exactly where no output comes to another batch is every item refused later that is refused
      now, and no other. */
  lemma TurnsWithItsOutput(rules: Rules, t: Tables, u: Tables)
    requires Wellformed(rules, t) && Wellformed(rules, u) && Onward(t, u)
    ensures Remains(t, u) <==> NoneTurns(rules, t, u)
  {
    if Remains(t, u) {
      forall item | Settled(rules, t, item)
        ensures Refused(rules, u, item) <==> Refused(rules, t, item)
      {
        SettledStays(rules, t, u, item);
      }
    } else {
      var item := SomeTurns(rules, t, u);
    }
  }

  /** How that comes about: a row of batch `batchId` is registered for an output that the node
      holds, from a peer, under another batch. The peer's reference, which was stored and lies
      behind the cursor, is refused from then on, and no call has counted it. */
  lemma TakenOutputIsNotCounted(
    rules: Rules, t: Tables, a: Anchor, batchId: string, u: Tables, name: string, epoch: string)
    returns (peer: Peer, state: PeerState)
    requires Wellformed(rules, t) && a in t.anchors && IsDigestText(a.txid)
    requires Register(t, batchId, AnchorKey(a)) == Some(u) && batchId != a.batchId
    ensures AppendOnly(peer) && IsStateOf(state, peer, epoch) && peer.epoch == Some(epoch)
    ensures CursorsSound(rules, t, peer, 0, state) && RefusedBehind(rules, t, peer, 0, state) == 0
    ensures CursorsSound(rules, u, peer, 0, state) && RefusedBehind(rules, u, peer, 0, state) == 1
  {
    var reference := ReferenceAccepted(rules, t, a);
    RegisteredWellformed(rules, t, batchId, AnchorKey(a));
    StepOnward(rules, t, Registered(batchId, AnchorKey(a)), u);
    OwnerAfterRegister(t, batchId, AnchorKey(a), AnchorKey(a));
    AnchorOwned(u, reference);
    ReferenceLost(rules, t, u, reference);
    peer, state := OneReference(reference, name, epoch), PeerState(name, epoch, 0, 0, 1);
    OneReferencePassed(rules, t, reference, name, epoch);
    OneReferencePassed(rules, u, reference, name, epoch);
  }

  /** A peer that serves this reference and nothing else. */
  ghost function OneReference(reference: Anchor, name: string, epoch: string): Peer {
    Peer(name, Some(epoch), (_: nat, kind: Kind) => OneEntry(reference, kind), AlwaysAnswers)
  }

  function OneEntry(reference: Anchor, kind: Kind): seq<Entry> {
    if kind == Anchors then [Entry(1, AnchorItem(reference))] else []
  }

  function AlwaysAnswers(call: nat): bool {
    true
  }

  lemma OneReferencePassed(rules: Rules, t: Tables, reference: Anchor, name: string, epoch: string)
    requires Settled(rules, t, AnchorItem(reference))
    ensures var peer, state := OneReference(reference, name, epoch), PeerState(name, epoch, 0, 0, 1);
            && AppendOnly(peer) && CursorsSound(rules, t, peer, 0, state)
            && RefusedBehind(rules, t, peer, 0, state) == if Refused(rules, t, AnchorItem(reference)) then 1 else 0
  {
    var peer, state := OneReference(reference, name, epoch), PeerState(name, epoch, 0, 0, 1);
    var done := Passed([], [], OneEntry(reference, Anchors));
    CoversPassed(rules, t, peer, 0, state, done);
  }

  // ---- the peers over time --------------------------------------------------------

  /** The three tables of every peer and epoch, at every time. */
  type Logs = (string, string, nat, Kind) -> seq<Entry>

  ghost predicate OnlyGrow(logs: Logs) {
    && (forall name, epoch, now, kind :: IsLog(kind, logs(name, epoch, now, kind)))
    && (forall name, epoch, now, later, kind ::
          now <= later ==> logs(name, epoch, now, kind) <= logs(name, epoch, later, kind))
  }

  /** The peer as a call meets it that starts now. */
  ghost function PeerAt(logs: Logs, name: string, epoch: Option<string>, now: nat, answered: nat -> bool): Peer {
    Peer(name, epoch, (call: nat, kind: Kind) => logs(name, epoch.GetOr(""), now + call, kind), answered)
  }

  /** The peer that a stored state speaks of. */
  ghost function PeerOf(logs: Logs, state: PeerState, now: nat): Peer {
    PeerAt(logs, state.peer, Some(state.epoch), now, AlwaysAnswers)
  }

  // ---- histories ------------------------------------------------------------------

  datatype Node = Node(t: Tables, peers: map<string, PeerState>, now: nat)

  /** What a node does: steps other than a scan, a scan, or a call of `sync_peer`. */
  datatype Move =
    | Working
    | Scanning(input: ScanInput)
    | Calling(key: string, name: string, epoch: Option<string>, answered: nat -> bool, pageSize: int, maxPages: int,
              outcome: SyncOutcome, calls: nat, errors: nat)

  /** One move, as the contracts of the methods have it. */
  ghost predicate Goes(rules: Rules, network: string, start: int, logs: Logs, n: Node, move: Move, m: Node) {
    n.now <= m.now &&
    match move
    case Working => m.peers == n.peers && Leads(rules, n.t, m.t) && Wellformed(rules, m.t)
    case Scanning(input) => m.peers == n.peers && Scan(n.t, network, start, input) == Some(m.t)
    case Calling(key, name, epoch, answered, pageSize, maxPages, outcome, calls, errors) =>
      var peer := PeerAt(logs, name, epoch, n.now, answered);
      && m.now == n.now + calls && Wellformed(rules, m.t)
      && (Remembers(rules, n.t, n.peers, key, peer, 0) ==>
            && KeepsCount(rules, n.t, n.peers, key, peer, calls, errors, m.t, m.peers)
            && Ends(rules, n.t, n.peers, key, peer, pageSize, maxPages, outcome, calls, errors, m.t, m.peers))
  }

  /** The node starts without peer states; from then on each state comes from the one before. */
  ghost predicate ComesAbout(
    rules: Rules, network: string, start: int, logs: Logs, nodes: seq<Node>, moves: seq<Move>, i: nat)
    requires i <= |moves| && i < |nodes|
  {
    if i == 0 then Wellformed(rules, nodes[0].t) && nodes[0].peers == map[]
    else Goes(rules, network, start, logs, nodes[i - 1], moves[i - 1], nodes[i])
  }

  ghost predicate IsHistory(
    rules: Rules, network: string, start: int, logs: Logs, nodes: seq<Node>, moves: seq<Move>)
  {
    && OnlyGrow(logs)
    && |nodes| == |moves| + 1
    && forall i :: 0 <= i <= |moves| ==> ComesAbout(rules, network, start, logs, nodes, moves, i)
  }

  /** The cursors of this state are sound for the peer it speaks of. */
  ghost predicate Knows(rules: Rules, logs: Logs, n: Node, state: PeerState) {
    CursorsSound(rules, n.t, PeerOf(logs, state, n.now), 0, state)
  }

  /** The tables are well-formed, and all stored cursors are sound. */
  ghost predicate AllKnown(rules: Rules, logs: Logs, n: Node) {
    Wellformed(rules, n.t) && forall key :: key in n.peers ==> Knows(rules, logs, n, n.peers[key])
  }

  /** How many entries at or below the cursors stored under this key are refused. */
  ghost function RefusedAt(rules: Rules, logs: Logs, n: Node, key: string): nat {
    if key in n.peers then RefusedBehind(rules, n.t, PeerOf(logs, n.peers[key], n.now), 0, n.peers[key]) else 0
  }

  lemma PeerGrows(logs: Logs, name: string, epoch: Option<string>, now: nat, answered: nat -> bool)
    requires OnlyGrow(logs)
    ensures AppendOnly(PeerAt(logs, name, epoch, now, answered))
  {
    var peer := PeerAt(logs, name, epoch, now, answered);
    forall call: nat, kind
      ensures IsLog(kind, peer.log(call, kind))
    {
      assert IsLog(kind, logs(name, epoch.GetOr(""), now + call, kind));
    }
    forall c: nat, d: nat, kind | c <= d
      ensures peer.log(c, kind) <= peer.log(d, kind)
    {
      LogGrows(logs, name, epoch.GetOr(""), now + c, now + d, kind);
    }
  }

  lemma LogGrows(logs: Logs, name: string, epoch: string, now: nat, later: nat, kind: Kind)
    requires OnlyGrow(logs) && now <= later
    ensures logs(name, epoch, now, kind) <= logs(name, epoch, later, kind)
  {
  }

  lemma PeerContinues(
    logs: Logs, name: string, epoch: string, now: nat, answered: nat -> bool, call: nat, later: nat,
    after: nat -> bool)
    requires OnlyGrow(logs) && now + call <= later
    ensures Continues(PeerAt(logs, name, Some(epoch), now, answered), call,
                      PeerAt(logs, name, Some(epoch), later, after), 0)
  {
    PeerGrows(logs, name, Some(epoch), now, answered);
    PeerGrows(logs, name, Some(epoch), later, after);
    var peer, next := PeerAt(logs, name, Some(epoch), now, answered), PeerAt(logs, name, Some(epoch), later, after);
    forall kind
      ensures peer.log(call, kind) <= next.log(0, kind)
    {
      LogGrows(logs, name, Some(epoch).GetOr(""), now + call, later, kind);
    }
  }

  /** A state that a move leaves alone. */
  lemma StateStays(rules: Rules, logs: Logs, n: Node, m: Node, state: PeerState)
    requires OnlyGrow(logs) && Wellformed(rules, n.t) && Wellformed(rules, m.t)
    requires Onward(n.t, m.t) && n.now <= m.now && Knows(rules, logs, n, state)
    ensures Knows(rules, logs, m, state)
    ensures Remains(n.t, m.t) ==>
              RefusedBehind(rules, m.t, PeerOf(logs, state, m.now), 0, state)
              == RefusedBehind(rules, n.t, PeerOf(logs, state, n.now), 0, state)
  {
    PeerContinues(logs, state.peer, state.epoch, n.now, AlwaysAnswers, 0, m.now, AlwaysAnswers);
    CursorsStay(rules, n.t, m.t, PeerOf(logs, state, n.now), 0, PeerOf(logs, state, m.now), 0, state);
  }

  /** Only what a peer serves matters. */
  lemma SameLogs(rules: Rules, t: Tables, peer: Peer, other: Peer, state: PeerState)
    requires forall kind :: peer.log(0, kind) == other.log(0, kind)
    ensures CursorsSound(rules, t, peer, 0, state) <==> CursorsSound(rules, t, other, 0, state)
    ensures RefusedBehind(rules, t, peer, 0, state) == RefusedBehind(rules, t, other, 0, state)
  {
    assert peer.log(0, Records) == other.log(0, Records);
    assert peer.log(0, Batches) == other.log(0, Batches);
    assert peer.log(0, Anchors) == other.log(0, Anchors);
    assert PassedBy(peer, 0, state) == PassedBy(other, 0, state);
  }

  /** What the node has stored of this log, as a call of `sync_peer` asks for it. */
  lemma CallRemembers(rules: Rules, logs: Logs, n: Node, key: string, peer: Peer, answered: nat -> bool)
    requires OnlyGrow(logs) && AllKnown(rules, logs, n)
    requires peer == PeerAt(logs, peer.name, peer.epoch, n.now, answered)
    ensures Remembers(rules, n.t, n.peers, key, peer, 0)
    ensures peer.epoch.Some? ==> RefusedSoFar(rules, n.t, n.peers, key, peer, 0) <= RefusedAt(rules, logs, n, key)
  {
    if peer.epoch.Some? {
      var epoch := peer.epoch.value;
      if key in n.peers && IsStateOf(n.peers[key], peer, epoch) {
        KnownToCall(rules, logs, n, n.peers[key], peer, answered);
      } else {
        PeerGrows(logs, peer.name, peer.epoch, n.now, answered);
        FreshIsSound(rules, n.t, peer, 0, peer.name, epoch);
      }
    }
  }

  lemma KnownToCall(rules: Rules, logs: Logs, n: Node, state: PeerState, peer: Peer, answered: nat -> bool)
    requires Knows(rules, logs, n, state) && peer == PeerAt(logs, peer.name, peer.epoch, n.now, answered)
    requires peer.epoch.Some? && IsStateOf(state, peer, peer.epoch.value)
    ensures CursorsSound(rules, n.t, peer, 0, state)
    ensures RefusedBehind(rules, n.t, peer, 0, state)
         == RefusedBehind(rules, n.t, PeerOf(logs, state, n.now), 0, state)
  {
    SameLogs(rules, n.t, peer, PeerOf(logs, state, n.now), state);
  }

  /** A call hands its cursors over to the next one. */
  lemma CallHandsOver(
    rules: Rules, logs: Logs, n: Node, m: Node, key: string, peer: Peer, answered: nat -> bool, calls: nat)
    requires OnlyGrow(logs) && Wellformed(rules, m.t) && m.now == n.now + calls
    requires peer == PeerAt(logs, peer.name, peer.epoch, n.now, answered) && peer.epoch.Some?
    requires key in m.peers && IsStateOf(m.peers[key], peer, peer.epoch.value)
    requires Remembers(rules, m.t, m.peers, key, peer, calls)
    ensures Knows(rules, logs, m, m.peers[key])
    ensures RefusedAt(rules, logs, m, key) == RefusedSoFar(rules, m.t, m.peers, key, peer, calls)
  {
    var state := m.peers[key];
    PeerContinues(logs, peer.name, peer.epoch.value, n.now, answered, calls, m.now, AlwaysAnswers);
    OnwardSelf(m.t);
    ExtendsSelf(m.t);
    ExtendsRemains(m.t, m.t);
    CursorsStay(rules, m.t, m.t, peer, calls, PeerOf(logs, state, m.now), 0, state);
  }

  /** The errors that this move adds to the account of a key. */
  ghost function ErrorsWith(move: Move, key: string): nat {
    if move.Calling? && move.key == key then move.errors else 0
  }

  /** The refused entries behind the cursors of this key were refused before or counted by the move. */
  ghost predicate CountedFor(rules: Rules, logs: Logs, n: Node, move: Move, m: Node, key: string) {
    RefusedAt(rules, logs, m, key) <= RefusedAt(rules, logs, n, key) + ErrorsWith(move, key)
  }

  lemma MoveOnward(rules: Rules, network: string, start: int, logs: Logs, n: Node, move: Move, m: Node)
    requires !move.Calling? && Wellformed(rules, n.t) && Goes(rules, network, start, logs, n, move, m)
    ensures Onward(n.t, m.t) && Wellformed(rules, m.t)
  {
    match move {
      case Working => LeadsOnward(rules, n.t, m.t);
      case Scanning(input) =>
        ScanOnward(rules, n.t, network, start, input, m.t);
        ScanKeepsWellformed(rules, n.t, network, start, input);
    }
  }

  lemma OtherMoveKeeps(rules: Rules, network: string, start: int, logs: Logs, n: Node, move: Move, m: Node)
    requires OnlyGrow(logs) && AllKnown(rules, logs, n) && Goes(rules, network, start, logs, n, move, m)
    requires !move.Calling?
    ensures AllKnown(rules, logs, m) && Onward(n.t, m.t)
    ensures Remains(n.t, m.t) ==> forall key :: CountedFor(rules, logs, n, move, m, key)
  {
    MoveOnward(rules, network, start, logs, n, move, m);
    forall key | key in m.peers
      ensures Knows(rules, logs, m, m.peers[key])
      ensures Remains(n.t, m.t) ==> CountedFor(rules, logs, n, move, m, key)
    {
      StateStays(rules, logs, n, m, m.peers[key]);
    }
  }

  /** The peer of a call. */
  ghost function PeerCalled(logs: Logs, now: nat, move: Move): Peer
    requires move.Calling?
  {
    PeerAt(logs, move.name, move.epoch, now, move.answered)
  }

  /** A call finds its cursors sound, so what `sync_peer` promises holds of it. */
  lemma CallIsGranted(rules: Rules, network: string, start: int, logs: Logs, n: Node, move: Move, m: Node)
    requires OnlyGrow(logs) && AllKnown(rules, logs, n) && Goes(rules, network, start, logs, n, move, m)
    requires move.Calling?
    ensures var peer := PeerCalled(logs, n.now, move);
            && KeepsCount(rules, n.t, n.peers, move.key, peer, move.calls, move.errors, m.t, m.peers)
            && Ends(rules, n.t, n.peers, move.key, peer, move.pageSize, move.maxPages, move.outcome, move.calls,
                    move.errors, m.t, m.peers)
  {
    CallRemembers(rules, logs, n, move.key, PeerCalled(logs, n.now, move), move.answered);
  }

  /** The state of the peer that was called. */
  lemma CalledKept(
    rules: Rules, logs: Logs, n: Node, m: Node, key: string, peer: Peer, answered: nat -> bool, calls: nat, errors: nat)
    requires OnlyGrow(logs) && AllKnown(rules, logs, n) && Wellformed(rules, m.t) && m.now == n.now + calls
    requires peer == PeerAt(logs, peer.name, peer.epoch, n.now, answered)
    requires KeepsCount(rules, n.t, n.peers, key, peer, calls, errors, m.t, m.peers) && key in m.peers
    ensures Knows(rules, logs, m, m.peers[key])
    ensures RefusedAt(rules, logs, m, key) <= RefusedAt(rules, logs, n, key) + errors
  {
    if peer.epoch.GetOr("") == "" {
      ExtendsRemains(n.t, m.t);
      StateStays(rules, logs, n, m, m.peers[key]);
    } else {
      CallRemembers(rules, logs, n, key, peer, answered);
      CallHandsOver(rules, logs, n, m, key, peer, answered, calls);
    }
  }

  lemma CallMoveKeeps(rules: Rules, network: string, start: int, logs: Logs, n: Node, move: Move, m: Node)
    requires OnlyGrow(logs) && AllKnown(rules, logs, n) && Goes(rules, network, start, logs, n, move, m)
    requires move.Calling?
    ensures AllKnown(rules, logs, m) && Extends(n.t, m.t)
    ensures forall key :: CountedFor(rules, logs, n, move, m, key)
  {
    CallIsGranted(rules, network, start, logs, n, move, m);
    ExtendsRemains(n.t, m.t);
    forall key | key in m.peers
      ensures Knows(rules, logs, m, m.peers[key]) && CountedFor(rules, logs, n, move, m, key)
    {
      if key == move.key {
        CalledKept(rules, logs, n, m, key, PeerCalled(logs, n.now, move), move.answered, move.calls, move.errors);
      } else {
        StateStays(rules, logs, n, m, m.peers[key]);
      }
    }
  }

  /** In every history, whatever happens between the calls of `sync_peer` and however they end,
      the cursors stored for every peer are sound: whatever that peer serves at or below them is
      stored or refused. So every call meets what it asks for. */
  lemma {:induction false} EveryHistoryRemembers(
    rules: Rules, network: string, start: int, logs: Logs, nodes: seq<Node>, moves: seq<Move>, i: nat)
    requires IsHistory(rules, network, start, logs, nodes, moves) && i <= |moves|
    ensures AllKnown(rules, logs, nodes[i])
  {
    assert ComesAbout(rules, network, start, logs, nodes, moves, i);
    if i > 0 {
      EveryHistoryRemembers(rules, network, start, logs, nodes, moves, i - 1);
      OneMove(rules, network, start, logs, nodes[i - 1], moves[i - 1], nodes[i]);
    }
  }

  lemma OneMove(rules: Rules, network: string, start: int, logs: Logs, n: Node, move: Move, m: Node)
    requires OnlyGrow(logs) && AllKnown(rules, logs, n) && Goes(rules, network, start, logs, n, move, m)
    ensures AllKnown(rules, logs, m) && Onward(n.t, m.t)
    ensures move.Calling? ==> Remains(n.t, m.t)
    ensures Remains(n.t, m.t) ==> forall key :: CountedFor(rules, logs, n, move, m, key)
  {
    if move.Calling? {
      CallMoveKeeps(rules, network, start, logs, n, move, m);
      ExtendsRemains(n.t, m.t);
    } else {
      OtherMoveKeeps(rules, network, start, logs, n, move, m);
    }
  }

  /** The errors of all calls with this key among the first `n` moves. */
  ghost function ErrorsOf(moves: seq<Move>, n: nat, key: string): nat
    requires n <= |moves|
  {
    if n == 0 then 0 else ErrorsOf(moves, n - 1, key) + ErrorsWith(moves[n - 1], key)
  }

  /** This move is a call, or gives no output to another batch. */
  ghost predicate LeavesOutputs(nodes: seq<Node>, moves: seq<Move>, i: nat)
    requires i < |moves| && i + 1 < |nodes|
  {
    !moves[i].Calling? ==> Remains(nodes[i].t, nodes[i + 1].t)
  }

  /** None of the first `n` moves, calls apart, gives an output to another batch. */
  ghost predicate NoOutputTaken(nodes: seq<Node>, moves: seq<Move>, n: nat)
    requires n <= |moves| < |nodes|
  {
    forall i :: 0 <= i < n ==> LeavesOutputs(nodes, moves, i)
  }

  /** The `i`-th move adds no more refused entries than it counts. */
  lemma MoveCounts(
    rules: Rules, network: string, start: int, logs: Logs, nodes: seq<Node>, moves: seq<Move>, key: string, i: nat,
    next: nat)
    requires IsHistory(rules, network, start, logs, nodes, moves) && i < |moves| && next == i + 1
    requires LeavesOutputs(nodes, moves, i)
    ensures CountedFor(rules, logs, nodes[i], moves[i], nodes[next], key)
  {
    EveryHistoryRemembers(rules, network, start, logs, nodes, moves, i);
    assert ComesAbout(rules, network, start, logs, nodes, moves, next);
    OneMove(rules, network, start, logs, nodes[i], moves[i], nodes[next]);
  }

  lemma NoneAtStart(
    rules: Rules, network: string, start: int, logs: Logs, nodes: seq<Node>, moves: seq<Move>, key: string)
    requires IsHistory(rules, network, start, logs, nodes, moves)
    ensures RefusedAt(rules, logs, nodes[0], key) == 0
  {
    assert ComesAbout(rules, network, start, logs, nodes, moves, 0);
  }

  /** The account so far covers the refused entries behind the cursors of this key. */
  ghost predicate Accounted(rules: Rules, logs: Logs, nodes: seq<Node>, moves: seq<Move>, key: string, i: nat)
    requires i <= |moves| < |nodes|
  {
    RefusedAt(rules, logs, nodes[i], key) <= ErrorsOf(moves, i, key)
  }

  lemma AccountedNext(
    rules: Rules, logs: Logs, nodes: seq<Node>, moves: seq<Move>, key: string, i: nat, next: nat)
    requires i < |moves| < |nodes| && next == i + 1 && Accounted(rules, logs, nodes, moves, key, i)
    requires CountedFor(rules, logs, nodes[i], moves[i], nodes[next], key)
    ensures Accounted(rules, logs, nodes, moves, key, next)
  {
  }

  /** In a history in which no output comes to another batch, every refused entry at or below the
      cursors of a peer was counted as an error of some call. */
  lemma {:induction false} EveryRefusalIsCounted(
    rules: Rules, network: string, start: int, logs: Logs, nodes: seq<Node>, moves: seq<Move>, key: string, i: nat)
    requires IsHistory(rules, network, start, logs, nodes, moves) && i <= |moves|
    requires NoOutputTaken(nodes, moves, i)
    ensures Accounted(rules, logs, nodes, moves, key, i)
  {
    if i == 0 {
      NoneAtStart(rules, network, start, logs, nodes, moves, key);
    } else {
      var last := i - 1;
      assert LeavesOutputs(nodes, moves, last);
      EveryRefusalIsCounted(rules, network, start, logs, nodes, moves, key, last);
      MoveCounts(rules, network, start, logs, nodes, moves, key, last, i);
      AccountedNext(rules, logs, nodes, moves, key, last, i);
    }
  }

  // ---- what replication is for ----------------------------------------------------

  /** All of these are stored, and none is refused. */
  ghost predicate AllTaken(rules: Rules, t: Tables, entries: seq<Entry>) {
    forall e :: e in entries ==> Stored(t, e.item) && !Refused(rules, t, e.item)
  }

  lemma NoneRefused(rules: Rules, t: Tables, entries: seq<Entry>)
    requires AllSettled(rules, t, entries) && Refusals(rules, t, entries) == 0
    ensures AllTaken(rules, t, entries)
  {
    assert Where(IsRefused(rules, t), entries) == [];
    forall e | e in entries
      ensures !Refused(rules, t, e.item)
    {
      assert !IsRefused(rules, t)(e);
    }
  }

  lemma TakenRemain(rules: Rules, t: Tables, u: Tables, entries: seq<Entry>)
    requires Wellformed(rules, t) && Wellformed(rules, u) && Remains(t, u) && AllTaken(rules, t, entries)
    ensures AllTaken(rules, u, entries)
  {
    forall e | e in entries
      ensures Stored(u, e.item) && !Refused(rules, u, e.item)
    {
      SettledStays(rules, t, u, e.item);
    }
  }

  /** All that this peer has when a call to it starts. */
  ghost predicate TakenFrom(rules: Rules, t: Tables, peer: Peer) {
    forall kind :: AllTaken(rules, t, peer.log(0, kind))
  }

  ghost predicate TakenAt(rules: Rules, nodes: seq<Node>, i: nat, peer: Peer)
    requires i < |nodes|
  {
    TakenFrom(rules, nodes[i].t, peer)
  }

  lemma TakenFromRemains(rules: Rules, t: Tables, u: Tables, peer: Peer)
    requires Wellformed(rules, t) && Wellformed(rules, u) && Remains(t, u) && TakenFrom(rules, t, peer)
    ensures TakenFrom(rules, u, peer)
  {
    forall kind
      ensures AllTaken(rules, u, peer.log(0, kind))
    {
      TakenRemain(rules, t, u, peer.log(0, kind));
    }
  }

  /** What the entries of the peer refer to, it serves as well. */
  ghost predicate ServesWhole(peer: Peer) {
    AllServed(peer.log(0, Records), peer.log(0, Batches), peer.log(0, Batches) + peer.log(0, Anchors))
  }

  lemma CleanCall(rules: Rules, t: Tables, peer: Peer)
    requires Replicated(rules, t, peer.log(0, Records), peer.log(0, Batches), peer.log(0, Anchors), 0)
    requires ServesWhole(peer)
    ensures TakenFrom(rules, t, peer)
  {
    assert Clean(rules, peer.log(0, Records) + peer.log(0, Batches), 0);
    forall kind
      ensures AllTaken(rules, t, peer.log(0, kind))
    {
      match kind {
        case Records => NoneRefused(rules, t, peer.log(0, Records));
        case Batches => NoneRefused(rules, t, peer.log(0, Batches));
        case Anchors => NoneRefused(rules, t, peer.log(0, Anchors));
      }
    }
  }

  /** The call returned, and no item of its peer was refused, in it or before. */
  ghost predicate ReturnsClean(moves: seq<Move>, i: nat)
    requires i < |moves|
  {
    moves[i].Calling? && moves[i].outcome.Synced? && ErrorsOf(moves, i + 1, moves[i].key) == 0
  }

  lemma CleanCallTakes(rules: Rules, network: string, start: int, logs: Logs, n: Node, move: Move, m: Node)
    requires OnlyGrow(logs) && AllKnown(rules, logs, n) && Goes(rules, network, start, logs, n, move, m)
    requires move.Calling? && move.outcome.Synced? && move.errors == 0 && RefusedAt(rules, logs, n, move.key) == 0
    requires ServesWhole(PeerCalled(logs, n.now, move))
    ensures TakenFrom(rules, m.t, PeerCalled(logs, n.now, move))
  {
    var peer := PeerCalled(logs, n.now, move);
    CallIsGranted(rules, network, start, logs, n, move, m);
    CallRemembers(rules, logs, n, move.key, peer, move.answered);
    CleanCall(rules, m.t, peer);
  }

  /** So it is for such a call in a history. */
  lemma CleanMoveTakes(
    rules: Rules, network: string, start: int, logs: Logs, nodes: seq<Node>, moves: seq<Move>, i: nat, next: nat)
    requires IsHistory(rules, network, start, logs, nodes, moves) && i < |moves| && next == i + 1
    requires NoOutputTaken(nodes, moves, i) && ReturnsClean(moves, i)
    requires ServesWhole(PeerCalled(logs, nodes[i].now, moves[i]))
    ensures TakenAt(rules, nodes, next, PeerCalled(logs, nodes[i].now, moves[i]))
  {
    EveryHistoryRemembers(rules, network, start, logs, nodes, moves, i);
    EveryRefusalIsCounted(rules, network, start, logs, nodes, moves, moves[i].key, i);
    assert ComesAbout(rules, network, start, logs, nodes, moves, next);
    CleanCallTakes(rules, network, start, logs, nodes[i], moves[i], nodes[next]);
  }

  lemma StillTaken(
    rules: Rules, network: string, start: int, logs: Logs, nodes: seq<Node>, moves: seq<Move>, peer: Peer, i: nat,
    next: nat)
    requires IsHistory(rules, network, start, logs, nodes, moves) && i < |moves| && next == i + 1
    requires NoOutputTaken(nodes, moves, next) && TakenAt(rules, nodes, i, peer)
    ensures TakenAt(rules, nodes, next, peer)
  {
    EveryHistoryRemembers(rules, network, start, logs, nodes, moves, i);
    assert ComesAbout(rules, network, start, logs, nodes, moves, next);
    assert LeavesOutputs(nodes, moves, i);
    OneMove(rules, network, start, logs, nodes[i], moves[i], nodes[next]);
    TakenFromRemains(rules, nodes[i].t, nodes[next].t, peer);
  }

  lemma FewerMoves(nodes: seq<Node>, moves: seq<Move>, n: nat, more: nat)
    requires n <= more <= |moves| < |nodes| && NoOutputTaken(nodes, moves, more)
    ensures NoOutputTaken(nodes, moves, n)
  {
  }

  ghost predicate Carries(holds: nat -> bool, k: nat, next: nat) {
    next == k + 1 && holds(k) ==> holds(next)
  }

  lemma {:induction false} EverAfter(holds: nat -> bool, i: nat, j: nat)
    requires i <= j && holds(i) && forall k: nat, next: nat :: i <= k && next <= j ==> Carries(holds, k, next)
    ensures holds(j)
  {
    if i < j {
      EverAfter(holds, i, j - 1);
      assert Carries(holds, j - 1, j);
    }
  }

  lemma TakenEverAfter(
    rules: Rules, network: string, start: int, logs: Logs, nodes: seq<Node>, moves: seq<Move>, peer: Peer, i: nat,
    j: nat)
    requires IsHistory(rules, network, start, logs, nodes, moves) && i <= j <= |moves|
    requires NoOutputTaken(nodes, moves, j) && TakenAt(rules, nodes, i, peer)
    ensures TakenAt(rules, nodes, j, peer)
  {
    var holds := (k: nat) => k < |nodes| && TakenAt(rules, nodes, k, peer);
    forall k: nat, next: nat | i <= k && next <= j
      ensures Carries(holds, k, next)
    {
      if next == k + 1 && holds(k) {
        FewerMoves(nodes, moves, next, j);
        StillTaken(rules, network, start, logs, nodes, moves, peer, k, next);
      }
    }
    EverAfter(holds, i, j);
  }

  /** The whole promise: in a history in which no output comes to another batch, a call of
      `sync_peer` that returns, to a peer that serves what its tables refer to and of which no
      item was ever counted as an error, leaves all that the peer had at the start of the call
      stored, then and in every later state. */
  lemma CleanHistoryReplicates(
    rules: Rules, network: string, start: int, logs: Logs, nodes: seq<Node>, moves: seq<Move>, i: nat, j: nat)
    requires IsHistory(rules, network, start, logs, nodes, moves) && i < j <= |moves|
    requires NoOutputTaken(nodes, moves, j) && ReturnsClean(moves, i)
    requires ServesWhole(PeerCalled(logs, nodes[i].now, moves[i]))
    ensures TakenAt(rules, nodes, j, PeerCalled(logs, nodes[i].now, moves[i]))
  {
    var peer := PeerCalled(logs, nodes[i].now, moves[i]);
    CleanMoveTakes(rules, network, start, logs, nodes, moves, i, i + 1);
    TakenEverAfter(rules, network, start, logs, nodes, moves, peer, i + 1, j);
  }
}
