/** Replication from a peer that serves its tables page by page: what a page is, what a cursor
    promises, and what a whole sync achieves (hap/sync.py, hap/api.py:455-490). */
module Replication {
  import opened Bytes
  import opened Hex
  import opened Batches
  import opened Tables
  import opened AnchorLaws
  import opened Runs
  import opened NodeStorage
  import opened Service
  import opened Steps

  datatype Kind = Records | Batches | Anchors

  datatype Item = RecordItem(record: Record) | BatchItem(batch: Batch) | AnchorItem(anchor: Anchor)

  /** One row of a served table with its ingest number. */
  datatype Entry = Entry(number: nat, item: Item)

  /** What one call of `sync_peer` meets: the epoch, if the peer tells it, the three tables at
      the time of each page request, and which requests are answered. */
  datatype Peer = Peer(name: string, epoch: Option<string>, log: (nat, Kind) -> seq<Entry>, answered: nat -> bool)

  datatype SyncResult = SyncResult(records: nat, batches: nat, anchors: nat, errors: nat, reset: bool)

  // ---- the honest peer ------------------------------------------------------------

  predicate OfKind(kind: Kind, item: Item) {
    match kind
    case Records => item.RecordItem?
    case Batches => item.BatchItem?
    case Anchors => item.AnchorItem?
  }

  ghost predicate Increasing(rows: seq<Entry>) {
    forall i, j :: 0 <= i < j < |rows| ==> rows[i].number < rows[j].number
  }

  ghost predicate IsLog(kind: Kind, log: seq<Entry>) {
    && Increasing(log)
    && (forall e :: e in log ==> e.number > 0 && OfKind(kind, e.item))
  }

  /** The tables only ever grow at the end. */
  ghost predicate AppendOnly(peer: Peer) {
    && (forall c, kind :: IsLog(kind, peer.log(c, kind)))
    && (forall c, d, kind :: c <= d ==> peer.log(c, kind) <= peer.log(d, kind))
  }

  /** What an item refers to is served as well. */
  ghost predicate DependencyServed(records: seq<Entry>, batches: seq<Entry>, item: Item) {
    match item
    case RecordItem(_) => true
    case BatchItem(b) =>
      forall id :: id in b.recordIds ==> exists e :: e in records && e.item.RecordItem? && e.item.record.id == id
    case AnchorItem(a) => exists e :: e in batches && e.item.BatchItem? && e.item.batch.batchId == a.batchId
  }

  // ---- paging ---------------------------------------------------------------------

  datatype Page = Page(entries: seq<Entry>, cursor: nat, hasMore: bool)

  function Beyond(after: nat): Entry -> bool {
    (e: Entry) => e.number > after
  }

  function Largest(kind: Kind): nat {
    match kind
    case Records => 25
    case Batches => 1
    case Anchors => 200
  }

  function Taken(rows: seq<Entry>, limit: nat): seq<Entry> {
    if |rows| <= limit then rows else rows[..limit]
  }

  /** The ingest number of the last of these entries, which is where a cursor behind them stands. */
  function LastNumber(rows: seq<Entry>): nat {
    if rows == [] then 0 else rows[|rows| - 1].number
  }

  /** One page of the sync interface; nothing when the limit is refused. */
  function Serve(kind: Kind, log: seq<Entry>, after: nat, limit: int): Option<Page> {
    if !(1 <= limit <= Largest(kind)) then None
    else
      var entries := Taken(Where(Beyond(after), log), limit);
      Some(Page(entries, if entries == [] then after else LastNumber(entries), |entries| == limit))
  }

  /** The cursor parts the table into these entries and the rest. */
  ghost predicate Parts(done: seq<Entry>, after: nat, rest: seq<Entry>) {
    && (forall e :: e in done ==> e.number <= after)
    && (forall e :: e in rest ==> e.number > after)
  }

  lemma RestBeyond(done: seq<Entry>, after: nat, rest: seq<Entry>)
    requires Parts(done, after, rest)
    ensures Where(Beyond(after), done + rest) == rest
  {
    WhereAppend(Beyond(after), done, rest);
    WhereNone(Beyond(after), done);
    WhereAll(Beyond(after), rest);
  }

  /** A page is what follows the cursor, up to the limit; it passes over nothing, and a page that
      is not full is the last one. */
  lemma PageIsNext(kind: Kind, done: seq<Entry>, after: nat, rest: seq<Entry>, limit: int)
    requires Parts(done, after, rest) && 1 <= limit <= Largest(kind)
    ensures var page := Taken(rest, limit);
            && Serve(kind, done + rest, after, limit)
               == Some(Page(page, if page == [] then after else LastNumber(page), |rest| >= limit))
    ensures |rest| < limit ==> Taken(rest, limit) == rest
    ensures Taken(rest, limit) <= rest
  {
    RestBeyond(done, after, rest);
  }

  lemma LogParts(kind: Kind, log: seq<Entry>, part: seq<Entry>)
    requires IsLog(kind, log) && part <= log
    ensures log == part + log[|part|..] && Parts(part, LastNumber(part), log[|part|..])
  {
    forall e | e in log[|part|..]
      ensures e.number > LastNumber(part)
    {
      var i :| |part| <= i < |log| && log[i] == e;
      assert e in log;
      assert part != [] ==> part[|part| - 1] == log[|part| - 1];
    }
    forall e | e in part
      ensures e.number <= LastNumber(part)
    {
      var i :| 0 <= i < |part| && part[i] == e;
      assert log[i] == e && log[|part| - 1] == part[|part| - 1];
    }
  }

  lemma Pasted(part: seq<Entry>, page: seq<Entry>)
    ensures (if page == [] then LastNumber(part) else LastNumber(page)) == LastNumber(part + page)
  {
    assert page == [] ==> part + page == part;
  }

  // ---- what a cursor promises -----------------------------------------------------

  ghost predicate HasAnchor(t: Tables, a: Anchor) {
    exists x :: x in t.anchors && AnchorKey(x) == AnchorKey(a) && x.batchId == a.batchId
  }

  ghost predicate Stored(t: Tables, item: Item) {
    match item
    case RecordItem(r) => HasId(t.records, r.id)
    case BatchItem(b) => exists c :: c in t.batches && c.batchId == b.batchId
    case AnchorItem(a) => HasAnchor(t, a)
  }

  /** The output is taken by an anchor of another batch. */
  ghost predicate OutputTaken(t: Tables, a: Anchor) {
    exists x :: x in t.anchors && AnchorKey(x) == AnchorKey(a) && x.batchId != a.batchId
  }

  /** The node has a lasting reason not to store this item. */
  ghost predicate Refused(rules: Rules, t: Tables, item: Item) {
    match item
    case RecordItem(r) => !ValidRecord(rules, r)
    case BatchItem(b) => !ValidBatch(rules.sha, b)
    case AnchorItem(a) =>
      || !ValidAnchorReference(a)
      || exists b :: b in t.batches && b.batchId == a.batchId && (b.network != a.network || OutputTaken(t, a))
  }

  /** Something the item refers to is not here. */
  ghost predicate Missing(t: Tables, item: Item) {
    match item
    case RecordItem(_) => false
    case BatchItem(b) => exists id :: id in b.recordIds && !HasId(t.records, id)
    case AnchorItem(a) => forall b :: b in t.batches ==> b.batchId != a.batchId
  }

  ghost predicate Settled(rules: Rules, t: Tables, item: Item) {
    Stored(t, item) || Refused(rules, t, item)
  }

  ghost predicate AllSettled(rules: Rules, t: Tables, entries: seq<Entry>) {
    forall e :: e in entries ==> Settled(rules, t, e.item)
  }

  ghost function IsRefused(rules: Rules, t: Tables): Entry -> bool {
    (e: Entry) => Refused(rules, t, e.item)
  }

  /** How many of these entries the node refuses. */
  ghost function Refusals(rules: Rules, t: Tables, entries: seq<Entry>): nat {
    |Where(IsRefused(rules, t), entries)|
  }

  function Cursor(state: PeerState, kind: Kind): nat {
    match kind
    case Records => state.recordsSeq
    case Batches => state.batchesSeq
    case Anchors => state.anchorsSeq
  }

  function WithCursor(state: PeerState, kind: Kind, cursor: nat): PeerState {
    match kind
    case Records => state.(recordsSeq := cursor)
    case Batches => state.(batchesSeq := cursor)
    case Anchors => state.(anchorsSeq := cursor)
  }

  /** A part of each of the three tables. */
  datatype Passed = Passed(records: seq<Entry>, batches: seq<Entry>, anchors: seq<Entry>)

  function Part(done: Passed, kind: Kind): seq<Entry> {
    match kind
    case Records => done.records
    case Batches => done.batches
    case Anchors => done.anchors
  }

  function WithPart(done: Passed, kind: Kind, part: seq<Entry>): Passed {
    match kind
    case Records => done.(records := part)
    case Batches => done.(batches := part)
    case Anchors => done.(anchors := part)
  }

  ghost function TotalRefusals(rules: Rules, t: Tables, done: Passed): nat {
    Refusals(rules, t, done.records) + Refusals(rules, t, done.batches) + Refusals(rules, t, done.anchors)
  }

  /** The cursor stands behind this first part of the table, and all of it is stored or refused. */
  ghost predicate PartSound(rules: Rules, t: Tables, log: seq<Entry>, cursor: nat, part: seq<Entry>) {
    part <= log && cursor == LastNumber(part) && AllSettled(rules, t, part)
  }

  ghost predicate Covers(rules: Rules, t: Tables, peer: Peer, call: nat, state: PeerState, done: Passed) {
    forall kind :: PartSound(rules, t, peer.log(call, kind), Cursor(state, kind), Part(done, kind))
  }

  function UpTo(cursor: nat): Entry -> bool {
    (e: Entry) => e.number <= cursor
  }

  /** The entries of a table at or below a cursor. */
  function Behind(log: seq<Entry>, cursor: nat): seq<Entry> {
    Where(UpTo(cursor), log)
  }

  lemma PartIsBehind(kind: Kind, log: seq<Entry>, part: seq<Entry>)
    requires IsLog(kind, log) && part <= log
    ensures Behind(log, LastNumber(part)) == part
  {
    var cursor := LastNumber(part);
    LogParts(kind, log, part);
    WhereAppend(UpTo(cursor), part, log[|part|..]);
    WhereAll(UpTo(cursor), part);
    WhereNone(UpTo(cursor), log[|part|..]);
  }

  /** What the peer serves at or below the three cursors. */
  ghost function PassedBy(peer: Peer, call: nat, state: PeerState): Passed {
    Passed(Behind(peer.log(call, Records), state.recordsSeq),
           Behind(peer.log(call, Batches), state.batchesSeq),
           Behind(peer.log(call, Anchors), state.anchorsSeq))
  }

  lemma CoversPassed(rules: Rules, t: Tables, peer: Peer, call: nat, state: PeerState, done: Passed)
    requires AppendOnly(peer) && Covers(rules, t, peer, call, state, done)
    ensures done == PassedBy(peer, call, state)
  {
    forall kind
      ensures Part(done, kind) == Behind(peer.log(call, kind), Cursor(state, kind))
    {
      assert PartSound(rules, t, peer.log(call, kind), Cursor(state, kind), Part(done, kind));
      PartIsBehind(kind, peer.log(call, kind), Part(done, kind));
    }
    assert Part(done, Records) == Behind(peer.log(call, Records), Cursor(state, Records));
    assert Part(done, Batches) == Behind(peer.log(call, Batches), Cursor(state, Batches));
    assert Part(done, Anchors) == Behind(peer.log(call, Anchors), Cursor(state, Anchors));
  }

  /** Each cursor is the number of an entry, or zero, and whatever the peer serves at or below it
      is stored or refused. */
  ghost predicate CursorsSound(rules: Rules, t: Tables, peer: Peer, call: nat, state: PeerState) {
    Covers(rules, t, peer, call, state, PassedBy(peer, call, state))
  }

  /** How many entries at or below the cursors the node refuses. */
  ghost function RefusedBehind(rules: Rules, t: Tables, peer: Peer, call: nat, state: PeerState): nat {
    TotalRefusals(rules, t, PassedBy(peer, call, state))
  }

  // ---- what stays settled ---------------------------------------------------------

  /** No record, batch or anchored output has gone; an output may have come to another batch. */
  ghost predicate Onward(t: Tables, u: Tables) {
    && (forall r :: r in t.records ==> r in u.records)
    && (forall b :: b in t.batches ==> b in u.batches)
    && (forall a :: a in t.anchors ==> HasOutput(u, AnchorKey(a)))
  }

  ghost predicate HasOutput(t: Tables, point: Outpoint) {
    exists x :: x in t.anchors && AnchorKey(x) == point
  }

  /** What is settled stays settled, even where an output comes to another batch: then the item
      that named the old one is refused from now on. */
  lemma SettledOnward(rules: Rules, t: Tables, u: Tables, item: Item)
    requires RowsLinked(t) && Onward(t, u) && Settled(rules, t, item)
    ensures Settled(rules, u, item)
  {
    match item {
      case RecordItem(r) =>
      case BatchItem(b) =>
      case AnchorItem(a) =>
        if ValidAnchorReference(a) {
          AnchorOnward(t, u, a);
        }
    }
  }

  lemma AnchorOnward(t: Tables, u: Tables, a: Anchor)
    requires RowsLinked(t) && Onward(t, u)
    requires HasAnchor(t, a) ||
             exists b :: b in t.batches && b.batchId == a.batchId && (b.network != a.network || OutputTaken(t, a))
    ensures HasAnchor(u, a) ||
            exists b :: b in u.batches && b.batchId == a.batchId && (b.network != a.network || OutputTaken(u, a))
  {
    if x :| x in t.anchors && AnchorKey(x) == AnchorKey(a) {
      assert HasOutput(u, AnchorKey(x)) && AnchorLinked(t, x);
      var y :| y in u.anchors && AnchorKey(y) == AnchorKey(a);
      assert y.batchId == a.batchId ==> HasAnchor(u, a);
      assert y.batchId != a.batchId ==> OutputTaken(u, a);
    }
  }

  /** Nothing has gone, and no output with a real transaction id has come to another batch. */
  ghost predicate Remains(t: Tables, u: Tables) {
    && (forall r :: r in t.records ==> r in u.records)
    && (forall b :: b in t.batches ==> b in u.batches)
    && (forall a :: a in t.anchors && IsDigestText(a.txid) ==> HasAnchor(u, a))
  }

  /** The tables have grown at their ends, and every anchor has kept its batch. */
  ghost predicate Extends(t: Tables, u: Tables) {
    && t.records <= u.records
    && t.batches <= u.batches
    && forall a :: a in t.anchors ==> HasAnchor(u, a)
  }

  lemma ExtendsSelf(t: Tables)
    ensures Extends(t, t)
  {
  }

  lemma ExtendsFurther(t: Tables, u: Tables, v: Tables)
    requires Extends(t, u) && Extends(u, v)
    ensures Extends(t, v)
  {
    forall a | a in t.anchors
      ensures HasAnchor(v, a)
    {
      var x :| x in u.anchors && AnchorKey(x) == AnchorKey(a) && x.batchId == a.batchId;
      assert HasAnchor(v, x);
    }
  }

  lemma ExtendsRemains(t: Tables, u: Tables)
    requires Extends(t, u)
    ensures Remains(t, u) && Onward(t, u)
  {
    forall a | a in t.anchors
      ensures HasOutput(u, AnchorKey(a))
    {
      assert HasAnchor(u, a);
    }
  }

  lemma StoredStays(t: Tables, u: Tables, item: Item)
    requires Remains(t, u) && Stored(t, item) && (item.AnchorItem? ==> IsDigestText(item.anchor.txid))
    ensures Stored(u, item)
  {
    match item {
      case RecordItem(r) =>
      case BatchItem(b) =>
      case AnchorItem(a) =>
        var x :| x in t.anchors && AnchorKey(x) == AnchorKey(a) && x.batchId == a.batchId;
        assert HasAnchor(u, x);
    }
  }

  lemma RefusedStays(rules: Rules, t: Tables, u: Tables, item: Item)
    requires Remains(t, u) && Refused(rules, t, item)
    ensures Refused(rules, u, item)
  {
    match item {
      case RecordItem(r) =>
      case BatchItem(b) =>
      case AnchorItem(a) =>
        if x :| ValidAnchorReference(a) && x in t.anchors && AnchorKey(x) == AnchorKey(a) && x.batchId != a.batchId {
          assert HasAnchor(u, x);
        }
    }
  }

  /** An anchor in place under the right batch is refused later only if it is refused now. */
  lemma PlacedNotRefused(rules: Rules, t: Tables, u: Tables, a: Anchor)
    requires Remains(t, u) && HasAnchor(t, a) && RowsLinked(t)
    requires Unique(BatchIdOf, u.batches) && Unique(AnchorKey, u.anchors)
    requires Refused(rules, u, AnchorItem(a))
    ensures Refused(rules, t, AnchorItem(a))
  {
    var x :| x in t.anchors && AnchorKey(x) == AnchorKey(a) && x.batchId == a.batchId;
    if ValidAnchorReference(a) {
      assert HasAnchor(u, x) && AnchorLinked(t, x);
      var c :| c in t.batches && c.batchId == a.batchId;
      assert !OutputTaken(u, a);
      var b :| b in u.batches && b.batchId == a.batchId && b.network != a.network;
      SameRow(BatchIdOf, u.batches, b, c);
    }
  }

  /** Where no output comes to another batch, what is settled stays so in the same way. */
  lemma SettledStays(rules: Rules, t: Tables, u: Tables, item: Item)
    requires Wellformed(rules, t) && Wellformed(rules, u) && Remains(t, u) && Settled(rules, t, item)
    ensures Settled(rules, u, item) && (Refused(rules, u, item) <==> Refused(rules, t, item))
  {
    if Refused(rules, t, item) {
      RefusedStays(rules, t, u, item);
    } else {
      StoredStays(t, u, item);
      if item.AnchorItem? && Refused(rules, u, item) {
        PlacedNotRefused(rules, t, u, item.anchor);
      }
    }
  }

  lemma {:induction false} RefusalsRemain(rules: Rules, t: Tables, u: Tables, entries: seq<Entry>)
    requires Wellformed(rules, t) && Wellformed(rules, u) && Remains(t, u) && AllSettled(rules, t, entries)
    ensures AllSettled(rules, u, entries) && Refusals(rules, u, entries) == Refusals(rules, t, entries)
  {
    if entries != [] {
      assert entries[0] in entries;
      assert forall e :: e in entries[1..] ==> e in entries;
      SettledStays(rules, t, u, entries[0].item);
      RefusalsRemain(rules, t, u, entries[1..]);
    }
  }

  lemma RefusalsStay(rules: Rules, t: Tables, u: Tables, entries: seq<Entry>)
    requires Wellformed(rules, t) && Wellformed(rules, u) && Extends(t, u) && AllSettled(rules, t, entries)
    ensures AllSettled(rules, u, entries) && Refusals(rules, u, entries) == Refusals(rules, t, entries)
  {
    ExtendsRemains(t, u);
    RefusalsRemain(rules, t, u, entries);
  }

  lemma SettledAppend(rules: Rules, t: Tables, a: seq<Entry>, b: seq<Entry>)
    ensures AllSettled(rules, t, a + b) <==> AllSettled(rules, t, a) && AllSettled(rules, t, b)
    ensures Refusals(rules, t, a + b) == Refusals(rules, t, a) + Refusals(rules, t, b)
  {
    WhereAppend(IsRefused(rules, t), a, b);
    assert forall e :: e in a + b <==> e in a || e in b;
  }

  /** The tables of the second peer continue those of the first. */
  ghost predicate Continues(peer: Peer, call: nat, later: Peer, at: nat) {
    && AppendOnly(peer) && AppendOnly(later)
    && forall kind :: peer.log(call, kind) <= later.log(at, kind)
  }

  lemma CoversRemain(
    rules: Rules, t: Tables, u: Tables, peer: Peer, call: nat, later: Peer, at: nat, state: PeerState, done: Passed)
    requires Continues(peer, call, later, at) && Covers(rules, t, peer, call, state, done)
    requires Wellformed(rules, t) && Wellformed(rules, u) && Remains(t, u)
    ensures Covers(rules, u, later, at, state, done)
    ensures TotalRefusals(rules, u, done) == TotalRefusals(rules, t, done)
  {
    forall kind
      ensures PartSound(rules, u, later.log(at, kind), Cursor(state, kind), Part(done, kind))
      ensures Refusals(rules, u, Part(done, kind)) == Refusals(rules, t, Part(done, kind))
    {
      assert PartSound(rules, t, peer.log(call, kind), Cursor(state, kind), Part(done, kind));
      assert peer.log(call, kind) <= later.log(at, kind);
      RefusalsRemain(rules, t, u, Part(done, kind));
    }
    PartRefusals(rules, t, u, done);
  }

  /** As the peer's tables and the node's grow, nothing changes at or below the cursors. */
  lemma CoversStay(
    rules: Rules, t: Tables, u: Tables, peer: Peer, call: nat, later: nat, state: PeerState, done: Passed)
    requires AppendOnly(peer) && call <= later && Covers(rules, t, peer, call, state, done)
    requires Wellformed(rules, t) && Wellformed(rules, u) && Extends(t, u)
    ensures Covers(rules, u, peer, later, state, done)
    ensures TotalRefusals(rules, u, done) == TotalRefusals(rules, t, done)
  {
    ExtendsRemains(t, u);
    CoversRemain(rules, t, u, peer, call, peer, later, state, done);
  }

  lemma PartRefusals(rules: Rules, t: Tables, u: Tables, done: Passed)
    requires forall kind :: Refusals(rules, u, Part(done, kind)) == Refusals(rules, t, Part(done, kind))
    ensures TotalRefusals(rules, u, done) == TotalRefusals(rules, t, done)
  {
    assert Refusals(rules, u, Part(done, Records)) == Refusals(rules, t, Part(done, Records));
    assert Refusals(rules, u, Part(done, Batches)) == Refusals(rules, t, Part(done, Batches));
    assert Refusals(rules, u, Part(done, Anchors)) == Refusals(rules, t, Part(done, Anchors));
  }

  lemma CoversOnward(
    rules: Rules, t: Tables, u: Tables, peer: Peer, call: nat, later: Peer, at: nat, state: PeerState, done: Passed)
    requires Continues(peer, call, later, at) && Covers(rules, t, peer, call, state, done)
    requires RowsLinked(t) && Onward(t, u)
    ensures Covers(rules, u, later, at, state, done)
  {
    forall kind
      ensures PartSound(rules, u, later.log(at, kind), Cursor(state, kind), Part(done, kind))
    {
      assert PartSound(rules, t, peer.log(call, kind), Cursor(state, kind), Part(done, kind));
      assert peer.log(call, kind) <= later.log(at, kind);
      forall e | e in Part(done, kind)
        ensures Settled(rules, u, e.item)
      {
        SettledOnward(rules, t, u, e.item);
      }
    }
  }

  /** Stored cursors are handed over: for a later call, whose peer continues the tables, and for
      tables of the node from which nothing has gone, they are as sound as before; and where no
      output has come to another batch, just as many entries behind them are refused. */
  lemma CursorsStay(
    rules: Rules, t: Tables, u: Tables, peer: Peer, call: nat, later: Peer, at: nat, state: PeerState)
    requires Wellformed(rules, t) && Wellformed(rules, u) && Onward(t, u)
    requires Continues(peer, call, later, at) && CursorsSound(rules, t, peer, call, state)
    ensures CursorsSound(rules, u, later, at, state)
    ensures Remains(t, u) ==> RefusedBehind(rules, u, later, at, state) == RefusedBehind(rules, t, peer, call, state)
  {
    var done := PassedBy(peer, call, state);
    CoversOnward(rules, t, u, peer, call, later, at, state, done);
    CoversPassed(rules, u, later, at, state, done);
    if Remains(t, u) {
      CoversRemain(rules, t, u, peer, call, later, at, state, done);
    }
  }

  // ---- importing ------------------------------------------------------------------

  function Size(t: Tables, kind: Kind): nat {
    match kind
    case Records => |t.records|
    case Batches => |t.batches|
    case Anchors => |t.anchors|
  }

  /** One item was imported: what the outcome says has happened, and nothing else. */
  ghost predicate Imported(rules: Rules, t: Tables, item: Item, outcome: Outcome, u: Tables) {
    && Extends(t, u)
    && (forall kind :: Size(u, kind) == Size(t, kind) + (if outcome == Accepted && OfKind(kind, item) then 1 else 0))
    && match outcome {
         case Accepted => Stored(u, item) && !Refused(rules, u, item)
         case AlreadyExists => Stored(u, item) && !Refused(rules, u, item)
         case Rejected => u == t && Refused(rules, u, item)
         case MissingDependency => u == t && Missing(u, item)
       }
  }

  ghost predicate Keeps(rules: Rules, t: Tables, u: Tables) {
    Wellformed(rules, u) && LocalStep(rules, t, Grown, u)
  }

  lemma RecordStored(rules: Rules, t: Tables, r: Record, u: Tables)
    requires Wellformed(rules, t) && ValidRecord(rules, r) && !HasId(t.records, r.id)
    requires u == t.(records := t.records + [r])
    ensures Keeps(rules, t, u) && Imported(rules, t, RecordItem(r), Accepted, u)
  {
    ExtendsSelf(t);
    assert u.records[|t.records|] == r;
    WellformedWithRecord(rules, t, r);
    ImportIsGrowth(rules, t, u);
  }

  /** Nothing happens when an item is known, refused or early. */
  lemma NothingImported(rules: Rules, t: Tables, item: Item, outcome: Outcome)
    requires outcome != Accepted
    requires outcome == AlreadyExists ==> Stored(t, item) && !Refused(rules, t, item)
    requires outcome == Rejected ==> Refused(rules, t, item)
    requires outcome == MissingDependency ==> Missing(t, item)
    ensures Imported(rules, t, item, outcome, t)
  {
    ExtendsSelf(t);
  }

  lemma BatchStored(rules: Rules, t: Tables, b: Batch, outcome: Outcome, u: Tables)
    requires u == AddBatch(t, b) && ValidBatch(rules.sha, b)
    requires outcome == if Row(BatchIdOf, t.batches, b.batchId).None? then Accepted else AlreadyExists
    ensures Imported(rules, t, BatchItem(b), outcome, u)
  {
    BatchGrew(t, b, u);
    assert !Refused(rules, u, BatchItem(b));
  }

  lemma BatchGrew(t: Tables, b: Batch, u: Tables)
    requires u == AddBatch(t, b)
    ensures Extends(t, u) && Stored(u, BatchItem(b))
    ensures forall kind :: Size(u, kind) ==
              Size(t, kind) + (if kind == Batches && Row(BatchIdOf, t.batches, b.batchId).None? then 1 else 0)
  {
    AddBatchAdds(t, b);
    AddBatchLinks(t, b);
    AnchorsStay(t, u);
  }

  lemma AnchorsStay(t: Tables, u: Tables)
    requires t.records <= u.records && t.batches <= u.batches && t.anchors == u.anchors
    ensures Extends(t, u)
  {
  }

  lemma BatchKeeps(rules: Rules, t: Tables, b: Batch)
    requires Wellformed(rules, t) && ValidBatch(rules.sha, b) && IdsStored(t.records, b)
    ensures Keeps(rules, t, AddBatch(t, b))
  {
    AddBatchAdds(t, b);
    WellformedWithBatch(rules, t, b);
    ImportIsGrowth(rules, t, AddBatch(t, b));
  }

  lemma AnchorUpdated(t: Tables, a: Anchor)
    requires Unique(AnchorKey, t.anchors)
    requires Row(AnchorKey, t.anchors, AnchorKey(a)).Some? ==>
               Row(AnchorKey, t.anchors, AnchorKey(a)).value.batchId == a.batchId
    ensures var u := t.(anchors := AddAnchor(t.anchors, a));
            Extends(t, u) && HasAnchor(u, a)
    ensures |AddAnchor(t.anchors, a)| == |t.anchors| + (if Row(AnchorKey, t.anchors, AnchorKey(a)).None? then 1 else 0)
  {
    var u := t.(anchors := AddAnchor(t.anchors, a));
    UpsertRows(AnchorKey, t.anchors, a);
    assert a in u.anchors;
    forall x | x in t.anchors
      ensures HasAnchor(u, x)
    {
      if AnchorKey(x) == AnchorKey(a) {
        SameRow(AnchorKey, t.anchors, x, Row(AnchorKey, t.anchors, AnchorKey(a)).value);
      } else {
        assert x in u.anchors;
      }
    }
  }

  lemma ReferenceOf(t: Tables, a: Anchor)
    requires ImportAnchor(t, a).Some?
    ensures var r := LocalReference(t, a);
            && AnchorKey(r) == AnchorKey(a) && r.batchId == a.batchId
            && ImportAnchor(t, a) == Some(t.(anchors := AddAnchor(t.anchors, r)))
    ensures Row(AnchorKey, t.anchors, AnchorKey(a)).Some? ==>
              Row(AnchorKey, t.anchors, AnchorKey(a)).value.batchId == a.batchId
  {
  }

  lemma AnchorStored(rules: Rules, t: Tables, a: Anchor, outcome: Outcome, u: Tables)
    requires Unique(AnchorKey, t.anchors) && Unique(BatchIdOf, t.batches) && ValidAnchorReference(a)
    requires ImportAnchor(t, a) == Some(u)
    requires outcome == if Row(AnchorKey, t.anchors, AnchorKey(a)).None? then Accepted else AlreadyExists
    ensures Imported(rules, t, AnchorItem(a), outcome, u)
  {
    ReferenceOf(t, a);
    AnchorUpdated(t, LocalReference(t, a));
    var x :| x in u.anchors && AnchorKey(x) == AnchorKey(a) && x.batchId == a.batchId;
    assert HasAnchor(u, a);
    ReferenceNotRefused(rules, t, a, u);
  }

  lemma ReferenceNotRefused(rules: Rules, t: Tables, a: Anchor, u: Tables)
    requires Unique(AnchorKey, t.anchors) && Unique(BatchIdOf, t.batches) && ValidAnchorReference(a)
    requires ImportAnchor(t, a) == Some(u)
    ensures !Refused(rules, u, AnchorItem(a))
  {
    var r := LocalReference(t, a);
    ReferenceOf(t, a);
    UpsertRows(AnchorKey, t.anchors, r);
    forall x | x in u.anchors && AnchorKey(x) == AnchorKey(a)
      ensures x.batchId == a.batchId
    {
      assert x == r;
    }
    forall b | b in u.batches && b.batchId == a.batchId
      ensures b.network == a.network
    {
      SameRow(BatchIdOf, t.batches, b, Row(BatchIdOf, t.batches, a.batchId).value);
    }
  }

  lemma WhyRefused(rules: Rules, t: Tables, a: Anchor)
    requires Row(BatchIdOf, t.batches, a.batchId).Some? && ImportAnchor(t, a).None?
    ensures Refused(rules, t, AnchorItem(a))
  {
    var b := Row(BatchIdOf, t.batches, a.batchId).value;
    assert b.network != a.network || OutputTaken(t, a);
  }

  ghost predicate Grew(t: Tables, kind: Kind, accepted: nat, u: Tables) {
    Extends(t, u) && forall k :: Size(u, k) == Size(t, k) + (if k == kind then accepted else 0)
  }

  lemma GrewTwice(t: Tables, kind: Kind, first: nat, u: Tables, second: nat, v: Tables)
    requires Grew(t, kind, first, u) && Grew(u, kind, second, v)
    ensures Grew(t, kind, first + second, v)
  {
    ExtendsFurther(t, u, v);
  }

  lemma ImportGrew(rules: Rules, t: Tables, kind: Kind, item: Item, outcome: Outcome, u: Tables)
    requires OfKind(kind, item) && Imported(rules, t, item, outcome, u)
    ensures Grew(t, kind, if outcome == Accepted then 1 else 0, u)
  {
  }

  // ---- one page -------------------------------------------------------------------

  /** These items were handled one after the other: each is stored or refused, and the errors
      counted are exactly the refused ones. */
  ghost predicate Handled(
    rules: Rules, before: Tables, kind: Kind, entries: seq<Entry>, accepted: nat, errors: nat, t: Tables)
  {
    && Grew(before, kind, accepted, t)
    && AllSettled(rules, t, entries)
    && errors == Refusals(rules, t, entries)
  }

  lemma NoneHandled(rules: Rules, t: Tables, kind: Kind)
    ensures Handled(rules, t, kind, [], 0, 0, t)
  {
    ExtendsSelf(t);
  }

  lemma OneMoreHandled(
    rules: Rules, before: Tables, kind: Kind, entries: seq<Entry>, accepted: nat, errors: nat, t: Tables,
    e: Entry, outcome: Outcome, u: Tables)
    requires Handled(rules, before, kind, entries, accepted, errors, t) && Wellformed(rules, t) && Wellformed(rules, u)
    requires OfKind(kind, e.item) && Imported(rules, t, e.item, outcome, u) && outcome != MissingDependency
    ensures Handled(rules, before, kind, entries + [e], accepted + (if outcome == Accepted then 1 else 0),
                    errors + (if outcome == Rejected then 1 else 0), u)
  {
    ImportGrew(rules, t, kind, e.item, outcome, u);
    GrewTwice(before, kind, accepted, t, if outcome == Accepted then 1 else 0, u);
    RefusalsStay(rules, t, u, entries);
    SettledAppend(rules, u, entries, [e]);
    assert Refusals(rules, u, [e]) == if outcome == Rejected then 1 else 0;
  }

  lemma StoppedHandled(
    rules: Rules, before: Tables, kind: Kind, entries: seq<Entry>, accepted: nat, errors: nat, t: Tables,
    e: Entry, u: Tables)
    requires Handled(rules, before, kind, entries, accepted, errors, t)
    requires Imported(rules, t, e.item, MissingDependency, u)
    ensures Handled(rules, before, kind, entries, accepted, errors, u) && Missing(u, e.item)
  {
  }

  /** The first `n` of these items were handled; the next one, if there is one, lacks what it
      refers to. */
  ghost predicate HandledUpTo(
    rules: Rules, before: Tables, kind: Kind, entries: seq<Entry>, n: nat, accepted: nat, errors: nat, t: Tables)
  {
    && n <= |entries|
    && Handled(rules, before, kind, entries[..n], accepted, errors, t)
    && (n < |entries| ==> Missing(t, entries[n].item))
  }

  // ---- one table ------------------------------------------------------------------

  /** How a page ends: more to ask for, the table done, a dependency missing, or an exception. */
  datatype PageEnd = More | Done | Stopped | Broken

  /** Where a sync stands before request `call`; `done` is what the cursors have passed, `errors`
      what was counted. */
  datatype Standing = Standing(
    t: Tables, peers: map<string, PeerState>, call: nat, state: PeerState, done: Passed, errors: nat)

  /** What is the same throughout one sync. */
  datatype Context = Context(rules: Rules, key: string, peer: Peer, from: Tables)

  ghost predicate Stands(c: Context, s: Standing) {
    && AppendOnly(c.peer)
    && Wellformed(c.rules, s.t)
    && Covers(c.rules, s.t, c.peer, s.call, s.state, s.done)
    && TotalRefusals(c.rules, s.t, s.done) <= s.errors
    && (c.key in s.peers ==> s.peers[c.key] == s.state)
  }

  lemma StandsParts(c: Context, kind: Kind, s: Standing)
    requires Stands(c, s)
    ensures Part(s.done, kind) <= c.peer.log(s.call, kind) && IsLog(kind, c.peer.log(s.call, kind))
    ensures Cursor(s.state, kind) == LastNumber(Part(s.done, kind))
    ensures AllSettled(c.rules, s.t, Part(s.done, kind))
  {
    assert PartSound(c.rules, s.t, c.peer.log(s.call, kind), Cursor(s.state, kind), Part(s.done, kind));
    assert IsLog(kind, c.peer.log(s.call, kind));
  }

  /** These entries are what comes next in the table, as many as were asked for if there are that many. */
  ghost predicate ComesNext(kind: Kind, log: seq<Entry>, part: seq<Entry>, limit: nat, entries: seq<Entry>) {
    && part + entries <= log && |entries| <= limit && (|entries| < limit ==> part + entries == log)
    && ItemsOf(kind, entries)
    && (entries != [] ==> LastNumber(part + entries) > LastNumber(part))
  }

  /** What a request brings whose cursor stands behind this part of the table. */
  lemma PageServed(kind: Kind, log: seq<Entry>, part: seq<Entry>, limit: int)
    returns (entries: seq<Entry>)
    requires IsLog(kind, log) && part <= log && 1 <= limit <= Largest(kind)
    ensures ComesNext(kind, log, part, limit, entries)
    ensures Serve(kind, log, LastNumber(part), limit)
         == Some(Page(entries, LastNumber(part + entries), |entries| == limit))
  {
    entries := Taken(log[|part|..], limit);
    LogParts(kind, log, part);
    PageIsNext(kind, part, LastNumber(part), log[|part|..], limit);
    Pasted(part, entries);
    PageOfLog(kind, log, part, limit);
  }

  lemma PageOfLog(kind: Kind, log: seq<Entry>, part: seq<Entry>, limit: nat)
    requires IsLog(kind, log) && part <= log
    ensures ComesNext(kind, log, part, limit, Taken(log[|part|..], limit))
  {
    var entries, rest := Taken(log[|part|..], limit), log[|part|..];
    assert part + entries == log[..|part| + |entries|];
    assert entries <= rest;
    assert forall e :: e in rest ==> e in log;
    LogParts(kind, log, part);
    if entries != [] {
      NumbersGrow(part, entries, rest);
    }
  }

  lemma NumbersGrow(part: seq<Entry>, entries: seq<Entry>, rest: seq<Entry>)
    requires Parts(part, LastNumber(part), rest) && entries <= rest && entries != []
    ensures LastNumber(part + entries) > LastNumber(part)
  {
    var last := entries[|entries| - 1];
    assert last == rest[|entries| - 1];
    assert (part + entries)[|part + entries| - 1] == last;
  }

  ghost predicate ItemsOf(kind: Kind, entries: seq<Entry>) {
    forall e :: e in entries ==> OfKind(kind, e.item)
  }

  ghost predicate OthersKept(peers: map<string, PeerState>, key: string, after: map<string, PeerState>) {
    forall k :: k != key ==> (k in after <==> k in peers) && (k in peers ==> after[k] == peers[k])
  }

  /** Only this kind's cursor may have moved; whenever it has, the new state is stored. */
  ghost predicate StateMoves(c: Context, kind: Kind, s: Standing, r: Standing) {
    && s.call <= r.call
    && Part(s.done, kind) <= Part(r.done, kind)
    && r.done == WithPart(s.done, kind, Part(r.done, kind))
    && r.state == WithCursor(s.state, kind, Cursor(r.state, kind))
    && ((r.peers == s.peers && r.state == s.state) || r.peers == s.peers[c.key := r.state])
  }

  lemma MovesTwice(c: Context, kind: Kind, s: Standing, r: Standing, q: Standing)
    requires StateMoves(c, kind, s, r) && StateMoves(c, kind, r, q)
    ensures StateMoves(c, kind, s, q)
  {
    assert s.peers[c.key := r.state][c.key := q.state] == s.peers[c.key := q.state];
  }

  lemma MovesNone(c: Context, kind: Kind, s: Standing)
    ensures StateMoves(c, kind, s, s)
  {
  }

  /** The items handled of one page, and whether the next one lacks what it refers to; the cursor
      moves when that is not so. */
  ghost predicate PageDone(c: Context, kind: Kind, s: Standing, handled: seq<Entry>, stopped: bool, r: Standing) {
    var log, reach := c.peer.log(s.call, kind), Part(s.done, kind) + handled;
    && reach <= log
    && r.call == s.call + 1 && Extends(s.t, r.t) && Wellformed(c.rules, r.t)
    && AllSettled(c.rules, r.t, handled) && r.errors == s.errors + Refusals(c.rules, r.t, handled)
    && if stopped then
         && |reach| < |log| && Missing(r.t, log[|reach|].item)
         && r.done == s.done && r.state == s.state && r.peers == s.peers
       else
         && r.done == WithPart(s.done, kind, reach)
         && r.state == WithCursor(s.state, kind, LastNumber(reach))
         && r.peers == s.peers[c.key := r.state]
  }

  /** What the import of a page means for the table it is a page of. */
  lemma PageHandled(
    c: Context, kind: Kind, s: Standing, entries: seq<Entry>, n: nat, accepted: nat, errors: nat, t: Tables)
    requires Part(s.done, kind) + entries <= c.peer.log(s.call, kind)
    requires HandledUpTo(c.rules, s.t, kind, entries, n, accepted, errors, t)
    ensures Part(s.done, kind) + entries[..n] <= c.peer.log(s.call, kind)
    ensures n == |entries| ==> entries[..n] == entries
    ensures n < |entries| ==>
              var log, reach := c.peer.log(s.call, kind), Part(s.done, kind) + entries[..n];
              |reach| < |log| && Missing(t, log[|reach|].item)
  {
    StopsInside(c.peer.log(s.call, kind), Part(s.done, kind), entries, n);
  }

  lemma StopsInside(log: seq<Entry>, part: seq<Entry>, entries: seq<Entry>, n: nat)
    requires part + entries <= log && n <= |entries|
    ensures var reach := part + entries[..n];
            && reach <= log
            && (n < |entries| ==> |reach| < |log| && log[|reach|] == entries[n])
  {
    var reach := part + entries[..n];
    assert (part + entries)[..|reach|] == reach;
    assert n < |entries| ==> (part + entries)[|reach|] == entries[n];
  }

  lemma PageMoves(c: Context, kind: Kind, s: Standing, handled: seq<Entry>, stopped: bool, r: Standing)
    requires PageDone(c, kind, s, handled, stopped, r)
    ensures StateMoves(c, kind, s, r)
    ensures Part(r.done, kind) == if stopped then Part(s.done, kind) else Part(s.done, kind) + handled
  {
  }

  /** The new cursor is as sound as the old ones. */
  lemma CursorMoved(
    rules: Rules, t: Tables, peer: Peer, call: nat, state: PeerState, done: Passed, kind: Kind, part: seq<Entry>)
    requires Covers(rules, t, peer, call, state, done) && part <= peer.log(call, kind) && AllSettled(rules, t, part)
    ensures Covers(rules, t, peer, call, WithCursor(state, kind, LastNumber(part)), WithPart(done, kind, part))
  {
    forall k
      ensures PartSound(rules, t, peer.log(call, k), Cursor(WithCursor(state, kind, LastNumber(part)), k),
                        Part(WithPart(done, kind, part), k))
    {
      assert PartSound(rules, t, peer.log(call, k), Cursor(state, k), Part(done, k));
    }
  }

  lemma TotalMoved(rules: Rules, t: Tables, done: Passed, kind: Kind, entries: seq<Entry>)
    ensures TotalRefusals(rules, t, WithPart(done, kind, Part(done, kind) + entries))
         == TotalRefusals(rules, t, done) + Refusals(rules, t, entries)
  {
    SettledAppend(rules, t, Part(done, kind), entries);
  }

  lemma PageStands(c: Context, kind: Kind, s: Standing, handled: seq<Entry>, stopped: bool, r: Standing)
    requires Stands(c, s) && PageDone(c, kind, s, handled, stopped, r)
    ensures Stands(c, r)
  {
    CoversStay(c.rules, s.t, r.t, c.peer, s.call, s.call, s.state, s.done);
    if !stopped {
      StandsParts(c, kind, s);
      CountOn(c.rules, s.t, r.t, Part(s.done, kind), handled);
      CursorMoved(c.rules, r.t, c.peer, s.call, s.state, s.done, kind, Part(s.done, kind) + handled);
      TotalMoved(c.rules, r.t, s.done, kind, handled);
    }
    ExtendsSelf(r.t);
    CoversStay(c.rules, r.t, r.t, c.peer, s.call, r.call, r.state, r.done);
  }

  lemma BrokenStands(c: Context, kind: Kind, s: Standing, r: Standing)
    requires Stands(c, s) && r == s.(call := s.call + 1)
    ensures Stands(c, r) && StateMoves(c, kind, s, r) && Grew(s.t, kind, 0, r.t)
  {
    ExtendsSelf(s.t);
    CoversStay(c.rules, s.t, s.t, c.peer, s.call, r.call, s.state, s.done);
  }

  /** Whole pages of one table were passed, `seen` in all, and the errors are exactly the refused
      entries on them. */
  ghost predicate Advances(c: Context, kind: Kind, s: Standing, seen: seq<Entry>, r: Standing) {
    && StateMoves(c, kind, s, r)
    && Part(r.done, kind) == Part(s.done, kind) + seen
    && AllSettled(c.rules, r.t, seen)
    && r.errors == s.errors + Refusals(c.rules, r.t, seen)
  }

  /** Counting goes on: what was settled before is counted the same, what came now is added. */
  lemma CountOn(rules: Rules, t: Tables, u: Tables, was: seq<Entry>, now: seq<Entry>)
    requires Wellformed(rules, t) && Wellformed(rules, u) && Extends(t, u)
    requires AllSettled(rules, t, was) && AllSettled(rules, u, now)
    ensures AllSettled(rules, u, was + now)
    ensures Refusals(rules, u, was + now) == Refusals(rules, t, was) + Refusals(rules, u, now)
  {
    RefusalsStay(rules, t, u, was);
    SettledAppend(rules, u, was, now);
  }

  lemma PageCounts(
    c: Context, kind: Kind, s: Standing, seen: seq<Entry>, r: Standing, handled: seq<Entry>, stopped: bool, q: Standing)
    requires Stands(c, r) && Advances(c, kind, s, seen, r) && PageDone(c, kind, r, handled, stopped, q)
    ensures StateMoves(c, kind, s, q) && AllSettled(c.rules, q.t, seen + handled)
    ensures q.errors == s.errors + Refusals(c.rules, q.t, seen + handled)
  {
    PageMoves(c, kind, r, handled, stopped, q);
    MovesTwice(c, kind, s, r, q);
    CountOn(c.rules, r.t, q.t, seen, handled);
  }

  lemma PageAdvances(
    c: Context, kind: Kind, s: Standing, seen: seq<Entry>, r: Standing, handled: seq<Entry>, q: Standing)
    requires Stands(c, r) && Advances(c, kind, s, seen, r) && PageDone(c, kind, r, handled, false, q)
    ensures Advances(c, kind, s, seen + handled, q)
  {
    PageCounts(c, kind, s, seen, r, handled, false, q);
    PageMoves(c, kind, r, handled, false, q);
    Regrouped(Part(s.done, kind), seen, handled);
  }

  lemma Regrouped(a: seq<Entry>, b: seq<Entry>, c: seq<Entry>)
    ensures a + b + c == a + (b + c)
  {
  }

  /** The first table is part of the last one that was read. */
  ghost predicate Prefixed(kind: Kind, first: seq<Entry>, last: seq<Entry>) {
    first <= last && IsLog(kind, last)
  }

  /** What was looked at ends with the table or in front of an item that lacks what it refers to. */
  ghost predicate EndsAt(rules: Rules, t: Tables, log: seq<Entry>, reach: seq<Entry>) {
    && reach <= log
    && AllSettled(rules, t, reach)
    && (|reach| < |log| ==> Missing(t, log[|reach|].item))
  }

  /** The sync of one table came to its end: `seen` is what it looked at, in a table that holds
      everything the peer had at the start, and the errors are exactly the refused entries in it. */
  ghost predicate Reaches(c: Context, kind: Kind, s: Standing, r: Standing, seen: seq<Entry>, last: seq<Entry>) {
    && Prefixed(kind, c.peer.log(0, kind), last)
    && EndsAt(c.rules, r.t, last, Part(s.done, kind) + seen)
    && r.errors == s.errors + Refusals(c.rules, r.t, seen)
    && (Part(s.done, kind) + seen == last ==>
          Part(r.done, kind) == last && c.key in r.peers && r.peers[c.key] == r.state)
  }

  ghost predicate KindReached(c: Context, kind: Kind, s: Standing, r: Standing) {
    StateMoves(c, kind, s, r) && exists seen, last :: Reaches(c, kind, s, r, seen, last)
  }

  lemma Rejoined(a: seq<Entry>, b: seq<Entry>)
    requires a <= b
    ensures a + b[|a|..] == b
  {
  }

  lemma LogsGrow(c: Context, kind: Kind, call: nat)
    requires AppendOnly(c.peer)
    ensures Prefixed(kind, c.peer.log(0, kind), c.peer.log(call, kind))
  {
  }

  /** The table is read to its end, or to an item that lacks what it refers to. */
  lemma PageReaches(
    c: Context, kind: Kind, s: Standing, seen: seq<Entry>, r: Standing, handled: seq<Entry>, stopped: bool, q: Standing)
    requires Stands(c, r) && Advances(c, kind, s, seen, r) && PageDone(c, kind, r, handled, stopped, q)
    requires stopped || Part(r.done, kind) + handled == c.peer.log(r.call, kind)
    ensures KindReached(c, kind, s, q)
  {
    PageCounts(c, kind, s, seen, r, handled, stopped, q);
    PageEndsAt(c, kind, r, handled, stopped, q);
    LogsGrow(c, kind, r.call);
    Regrouped(Part(s.done, kind), seen, handled);
    assert Reaches(c, kind, s, q, seen + handled, c.peer.log(r.call, kind));
  }

  lemma PageEndsAt(c: Context, kind: Kind, r: Standing, handled: seq<Entry>, stopped: bool, q: Standing)
    requires Stands(c, r) && PageDone(c, kind, r, handled, stopped, q)
    requires stopped || Part(r.done, kind) + handled == c.peer.log(r.call, kind)
    ensures EndsAt(c.rules, q.t, c.peer.log(r.call, kind), Part(r.done, kind) + handled)
    ensures Part(r.done, kind) + handled == c.peer.log(r.call, kind) ==>
              Part(q.done, kind) == c.peer.log(r.call, kind) && c.key in q.peers && q.peers[c.key] == q.state
  {
    StandsParts(c, kind, r);
    CountOn(c.rules, r.t, q.t, Part(r.done, kind), handled);
    PageMoves(c, kind, r, handled, stopped, q);
  }

  // ---- one peer -------------------------------------------------------------------

  datatype SyncOutcome = Failed | Synced(result: SyncResult)

  function FreshState(name: string, epoch: string): PeerState {
    PeerState(name, epoch, 0, 0, 0)
  }

  predicate IsStateOf(state: PeerState, peer: Peer, epoch: string) {
    state.epoch == epoch && state.peer == peer.name
  }

  /** The state a sync starts from: the stored one, unless it belongs to another log. */
  function StartOf(peers: map<string, PeerState>, key: string, peer: Peer, epoch: string): PeerState {
    if key in peers && IsStateOf(peers[key], peer, epoch) then peers[key] else FreshState(peer.name, epoch)
  }

  /** What the node has stored for this log is sound. */
  ghost predicate Remembers(
    rules: Rules, t: Tables, peers: map<string, PeerState>, key: string, peer: Peer, call: nat)
  {
    key in peers && peer.epoch.Some? && IsStateOf(peers[key], peer, peer.epoch.value) ==>
      CursorsSound(rules, t, peer, call, peers[key])
  }

  /** How many of the entries that a sync of this log passes over from the start are refused. */
  ghost function RefusedSoFar(
    rules: Rules, t: Tables, peers: map<string, PeerState>, key: string, peer: Peer, call: nat): nat
  {
    RefusedBehind(rules, t, peer, call, StartOf(peers, key, peer, peer.epoch.GetOr("")))
  }

  lemma FreshIsSound(rules: Rules, t: Tables, peer: Peer, call: nat, name: string, epoch: string)
    requires AppendOnly(peer)
    ensures CursorsSound(rules, t, peer, call, FreshState(name, epoch))
    ensures RefusedBehind(rules, t, peer, call, FreshState(name, epoch)) == 0
  {
    var state, none := FreshState(name, epoch), Passed([], [], []);
    forall kind
      ensures PartSound(rules, t, peer.log(call, kind), Cursor(state, kind), Part(none, kind))
    {
      assert Part(none, kind) == [] && Cursor(state, kind) == 0;
    }
    CoversPassed(rules, t, peer, call, state, none);
  }

  /** The stored state of this log is sound, and so is the fresh one. */
  lemma StartIsSound(
    rules: Rules, t: Tables, peers: map<string, PeerState>, key: string, peer: Peer, epoch: string)
    returns (done: Passed)
    requires AppendOnly(peer) && peer.epoch == Some(epoch) && Remembers(rules, t, peers, key, peer, 0)
    ensures Covers(rules, t, peer, 0, StartOf(peers, key, peer, epoch), done)
    ensures TotalRefusals(rules, t, done) == RefusedSoFar(rules, t, peers, key, peer, 0)
  {
    done := PassedBy(peer, 0, StartOf(peers, key, peer, epoch));
    FreshIsSound(rules, t, peer, 0, peer.name, epoch);
  }

  ghost predicate AllStored(t: Tables, entries: seq<Entry>) {
    forall e :: e in entries ==> Stored(t, e.item)
  }

  ghost predicate NoneMissing(t: Tables, entries: seq<Entry>) {
    forall e :: e in entries ==> !Missing(t, e.item)
  }

  /** A dependency that is missing later on holds up nothing that was there from the start. */
  lemma SettledFromStart(rules: Rules, t: Tables, kind: Kind, first: seq<Entry>, last: seq<Entry>, reach: seq<Entry>)
    requires Prefixed(kind, first, last) && EndsAt(rules, t, last, reach) && NoneMissing(t, first)
    ensures first <= reach && AllSettled(rules, t, first) && Refusals(rules, t, first) <= Refusals(rules, t, reach)
  {
    assert forall i :: 0 <= i < |first| ==> last[i] == first[i] && first[i] in first;
    Rejoined(first, reach);
    SettledAppend(rules, t, first, reach[|first|..]);
  }

  /** The sync looked at these entries behind that part, in a table that holds everything the
      peer had at the start. */
  ghost predicate KindSeen(
    rules: Rules, t: Tables, kind: Kind, first: seq<Entry>, part: seq<Entry>, seen: seq<Entry>)
  {
    exists last :: Prefixed(kind, first, last) && EndsAt(rules, t, last, part + seen)
  }

  lemma FirstItems(rules: Rules, t: Tables, kind: Kind, first: seq<Entry>, part: seq<Entry>, seen: seq<Entry>)
    requires KindSeen(rules, t, kind, first, part, seen)
    ensures ItemsOf(kind, first)
  {
    var last :| Prefixed(kind, first, last) && EndsAt(rules, t, last, part + seen);
    assert forall e :: e in first ==> e in last;
  }

  lemma KindSettled(rules: Rules, t: Tables, kind: Kind, first: seq<Entry>, part: seq<Entry>, seen: seq<Entry>)
    requires KindSeen(rules, t, kind, first, part, seen) && NoneMissing(t, first)
    ensures AllSettled(rules, t, first)
    ensures Refusals(rules, t, first) <= Refusals(rules, t, part) + Refusals(rules, t, seen)
  {
    var last :| Prefixed(kind, first, last) && EndsAt(rules, t, last, part + seen);
    SettledFromStart(rules, t, kind, first, last, part + seen);
    SettledAppend(rules, t, part, seen);
  }

  ghost predicate AllServed(records: seq<Entry>, batches: seq<Entry>, entries: seq<Entry>) {
    forall e :: e in entries ==> DependencyServed(records, batches, e.item)
  }

  lemma NoBatchWaits(t: Tables, records: seq<Entry>, batches: seq<Entry>)
    requires ItemsOf(Batches, batches) && AllServed(records, batches, batches) && AllStored(t, records)
    ensures NoneMissing(t, batches)
  {
    forall e, id | e in batches && id in e.item.batch.recordIds
      ensures HasId(t.records, id)
    {
      assert DependencyServed(records, batches, e.item);
      var d :| d in records && d.item.RecordItem? && d.item.record.id == id;
      assert Stored(t, d.item);
    }
  }

  lemma NoAnchorWaits(t: Tables, records: seq<Entry>, batches: seq<Entry>, anchors: seq<Entry>)
    requires ItemsOf(Anchors, anchors) && AllServed(records, batches, anchors) && AllStored(t, batches)
    ensures NoneMissing(t, anchors)
  {
    forall e | e in anchors
      ensures !Missing(t, e.item)
    {
      assert DependencyServed(records, batches, e.item);
      var d :| d in batches && d.item.BatchItem? && d.item.batch.batchId == e.item.anchor.batchId;
      assert Stored(t, d.item);
    }
  }

  ghost predicate AllValidItems(rules: Rules, entries: seq<Entry>) {
    forall e :: e in entries ==>
      match e.item {
        case RecordItem(r) => ValidRecord(rules, r)
        case BatchItem(b) => ValidBatch(rules.sha, b)
        case AnchorItem(_) => true
      }
  }

  /** No item was ever refused, or the peer serves no record and no batch that would be. */
  ghost predicate Clean(rules: Rules, entries: seq<Entry>, counted: nat) {
    counted == 0 || AllValidItems(rules, entries)
  }

  lemma CleanIsStored(rules: Rules, t: Tables, kind: Kind, entries: seq<Entry>, counted: nat)
    requires kind != Anchors && ItemsOf(kind, entries) && Clean(rules, entries, counted)
    requires AllSettled(rules, t, entries) && Refusals(rules, t, entries) <= counted
    ensures AllStored(t, entries)
  {
    forall e | e in entries
      ensures Stored(t, e.item)
    {
      if counted == 0 {
        assert Where(IsRefused(rules, t), entries) == [];
        assert !IsRefused(rules, t)(e);
      }
    }
  }

  lemma CleanParts(rules: Rules, records: seq<Entry>, batches: seq<Entry>, counted: nat)
    requires Clean(rules, records + batches, counted)
    ensures Clean(rules, records, counted) && Clean(rules, batches, counted)
  {
    assert forall e :: e in records || e in batches ==> e in records + batches;
  }

  lemma ServedParts(records: seq<Entry>, batches: seq<Entry>, anchors: seq<Entry>)
    requires AllServed(records, batches, batches + anchors)
    ensures AllServed(records, batches, batches) && AllServed(records, batches, anchors)
  {
    assert forall e :: e in batches || e in anchors ==> e in batches + anchors;
  }

  /** What a sync that comes to its end has achieved, for the tables as they were at its start:
      every record is stored or refused; if what the tables refer to is served as well and no
      record or batch is refused, all three tables are; and every refused entry was counted. */
  ghost predicate Replicated(
    rules: Rules, t: Tables, records: seq<Entry>, batches: seq<Entry>, anchors: seq<Entry>, counted: nat)
  {
    && AllSettled(rules, t, records) && Refusals(rules, t, records) <= counted
    && (AllServed(records, batches, batches + anchors) && Clean(rules, records + batches, counted) ==>
          && AllStored(t, records) && AllStored(t, batches) && AllSettled(rules, t, anchors)
          && TotalRefusals(rules, t, Passed(records, batches, anchors)) <= counted)
  }

  ghost predicate AllSeen(rules: Rules, t: Tables, peer: Peer, done: Passed, seen: Passed) {
    forall kind :: KindSeen(rules, t, kind, peer.log(0, kind), Part(done, kind), Part(seen, kind))
  }

  lemma RecordsReplicated(rules: Rules, t: Tables, peer: Peer, done: Passed, seen: Passed)
    requires AllSeen(rules, t, peer, done, seen)
    ensures var records := peer.log(0, Records);
            && ItemsOf(Records, records) && AllSettled(rules, t, records)
            && Refusals(rules, t, records) <= Refusals(rules, t, done.records) + Refusals(rules, t, seen.records)
  {
    assert KindSeen(rules, t, Records, peer.log(0, Records), Part(done, Records), Part(seen, Records));
    FirstItems(rules, t, Records, peer.log(0, Records), done.records, seen.records);
    KindSettled(rules, t, Records, peer.log(0, Records), done.records, seen.records);
  }

  lemma BatchesReplicated(
    rules: Rules, t: Tables, records: seq<Entry>, batches: seq<Entry>, part: seq<Entry>, seen: seq<Entry>, counted: nat)
    requires KindSeen(rules, t, Batches, batches, part, seen) && AllServed(records, batches, batches)
    requires AllStored(t, records) && Clean(rules, batches, counted)
    requires Refusals(rules, t, part) + Refusals(rules, t, seen) <= counted
    ensures AllStored(t, batches)
    ensures Refusals(rules, t, batches) <= Refusals(rules, t, part) + Refusals(rules, t, seen)
  {
    FirstItems(rules, t, Batches, batches, part, seen);
    NoBatchWaits(t, records, batches);
    KindSettled(rules, t, Batches, batches, part, seen);
    CleanIsStored(rules, t, Batches, batches, counted);
  }

  lemma AnchorsReplicated(
    rules: Rules, t: Tables, records: seq<Entry>, batches: seq<Entry>, anchors: seq<Entry>, part: seq<Entry>,
    seen: seq<Entry>)
    requires KindSeen(rules, t, Anchors, anchors, part, seen) && AllServed(records, batches, anchors)
    requires AllStored(t, batches)
    ensures AllSettled(rules, t, anchors)
    ensures Refusals(rules, t, anchors) <= Refusals(rules, t, part) + Refusals(rules, t, seen)
  {
    FirstItems(rules, t, Anchors, anchors, part, seen);
    NoAnchorWaits(t, records, batches, anchors);
    KindSettled(rules, t, Anchors, anchors, part, seen);
  }

  lemma AllReplicated(rules: Rules, t: Tables, peer: Peer, done: Passed, seen: Passed, counted: nat)
    requires AllSeen(rules, t, peer, done, seen)
    requires TotalRefusals(rules, t, done) + TotalRefusals(rules, t, seen) <= counted
    ensures Replicated(rules, t, peer.log(0, Records), peer.log(0, Batches), peer.log(0, Anchors), counted)
  {
    var records, batches, anchors := peer.log(0, Records), peer.log(0, Batches), peer.log(0, Anchors);
    RecordsReplicated(rules, t, peer, done, seen);
    if AllServed(records, batches, batches + anchors) && Clean(rules, records + batches, counted) {
      assert KindSeen(rules, t, Batches, batches, Part(done, Batches), Part(seen, Batches));
      assert KindSeen(rules, t, Anchors, anchors, Part(done, Anchors), Part(seen, Anchors));
      ServedParts(records, batches, anchors);
      CleanParts(rules, records, batches, counted);
      CleanIsStored(rules, t, Records, records, counted);
      BatchesReplicated(rules, t, records, batches, done.batches, seen.batches, counted);
      AnchorsReplicated(rules, t, records, batches, anchors, done.anchors, seen.anchors);
    }
  }

  // ---- the three tables together --------------------------------------------------

  /** The tables that entries of this kind refer to are the same. */
  ghost predicate SameBase(kind: Kind, t: Tables, u: Tables) {
    match kind
    case Records => true
    case Batches => t.records == u.records
    case Anchors => t.batches == u.batches
  }

  lemma EndsStay(rules: Rules, kind: Kind, t: Tables, u: Tables, first: seq<Entry>, part: seq<Entry>, seen: seq<Entry>)
    requires Wellformed(rules, t) && Wellformed(rules, u) && Extends(t, u) && SameBase(kind, t, u)
    requires KindSeen(rules, t, kind, first, part, seen)
    ensures KindSeen(rules, u, kind, first, part, seen) && AllSettled(rules, t, seen)
    ensures Refusals(rules, u, seen) == Refusals(rules, t, seen)
  {
    var last :| Prefixed(kind, first, last) && EndsAt(rules, t, last, part + seen);
    SettledAppend(rules, t, part, seen);
    RefusalsStay(rules, t, u, seen);
    EndsAtStays(rules, kind, t, u, last, part + seen);
  }

  lemma EndsAtStays(rules: Rules, kind: Kind, t: Tables, u: Tables, last: seq<Entry>, reach: seq<Entry>)
    requires Wellformed(rules, t) && Wellformed(rules, u) && Extends(t, u) && SameBase(kind, t, u)
    requires IsLog(kind, last) && EndsAt(rules, t, last, reach)
    ensures EndsAt(rules, u, last, reach)
  {
    RefusalsStay(rules, t, u, reach);
    if |reach| < |last| {
      assert last[|reach|] in last;
    }
  }

  /** What one table's loop saw, as the end of the whole sync sees it. */
  lemma KindEnds(c: Context, kind: Kind, s: Standing, r: Standing, t: Tables) returns (seen: seq<Entry>)
    requires Stands(c, r) && KindReached(c, kind, s, r)
    requires Wellformed(c.rules, t) && Extends(r.t, t) && SameBase(kind, r.t, t)
    ensures KindSeen(c.rules, t, kind, c.peer.log(0, kind), Part(s.done, kind), seen)
    ensures r.errors == s.errors + Refusals(c.rules, t, seen)
  {
    var last: seq<Entry>;
    seen, last :| Reaches(c, kind, s, r, seen, last);
    EndsStay(c.rules, kind, r.t, t, c.peer.log(0, kind), Part(s.done, kind), seen);
  }

  ghost predicate ThreeReached(c: Context, s: Standing, a: Standing, b: Standing, r: Standing) {
    && s.call == 0 && Stands(c, s) && Stands(c, a) && Stands(c, b) && Stands(c, r)
    && KindReached(c, Records, s, a) && KindReached(c, Batches, a, b) && KindReached(c, Anchors, b, r)
  }

  /** Three advances, one of each kind. */
  ghost predicate ThreeGrew(
    s: Standing, records: nat, a: Standing, batches: nat, b: Standing, anchors: nat, r: Standing)
  {
    && Grew(s.t, Records, records, a.t) && Grew(a.t, Batches, batches, b.t) && Grew(b.t, Anchors, anchors, r.t)
  }

  lemma GrewBase(t: Tables, kind: Kind, n: nat, u: Tables)
    requires Grew(t, kind, n, u)
    ensures kind != Records ==> t.records == u.records
    ensures kind != Batches ==> t.batches == u.batches
  {
    assert Size(u, Records) == Size(t, Records) + (if kind == Records then n else 0);
    assert Size(u, Batches) == Size(t, Batches) + (if kind == Batches then n else 0);
  }

  lemma PartsKept(c: Context, s: Standing, a: Standing, b: Standing)
    requires StateMoves(c, Records, s, a) && StateMoves(c, Batches, a, b)
    ensures Part(a.done, Batches) == Part(s.done, Batches) && Part(b.done, Anchors) == Part(s.done, Anchors)
  {
  }

  /** Everything the sync looked at, and that the errors are exactly the refused entries in it. */
  lemma ThreeSeen(
    c: Context, s: Standing, records: nat, a: Standing, batches: nat, b: Standing, anchors: nat, r: Standing)
    returns (seen: Passed)
    requires ThreeReached(c, s, a, b, r) && ThreeGrew(s, records, a, batches, b, anchors, r)
    ensures AllSeen(c.rules, r.t, c.peer, s.done, seen)
    ensures r.errors == s.errors + TotalRefusals(c.rules, r.t, seen)
    ensures TotalRefusals(c.rules, r.t, s.done) <= s.errors && Extends(s.t, r.t)
  {
    GrewBase(b.t, Anchors, anchors, r.t);
    ExtendsFurther(a.t, b.t, r.t);
    ExtendsFurther(s.t, a.t, r.t);
    ExtendsSelf(r.t);
    CoversStay(c.rules, s.t, r.t, c.peer, 0, 0, s.state, s.done);
    PartsKept(c, s, a, b);
    var x := KindEnds(c, Records, s, a, r.t);
    var y := KindEnds(c, Batches, a, b, r.t);
    var z := KindEnds(c, Anchors, b, r, r.t);
    seen := Passed(x, y, z);
    EachKind(c.rules, r.t, c.peer, s.done, seen);
  }

  lemma EachKind(rules: Rules, t: Tables, peer: Peer, done: Passed, seen: Passed)
    requires KindSeen(rules, t, Records, peer.log(0, Records), done.records, seen.records)
    requires KindSeen(rules, t, Batches, peer.log(0, Batches), done.batches, seen.batches)
    requires KindSeen(rules, t, Anchors, peer.log(0, Anchors), done.anchors, seen.anchors)
    ensures AllSeen(rules, t, peer, done, seen)
  {
    forall kind
      ensures KindSeen(rules, t, kind, peer.log(0, kind), Part(done, kind), Part(seen, kind))
    {
      match kind {
        case Records =>
        case Batches =>
        case Anchors =>
      }
    }
  }

  // ---- the account a caller gets --------------------------------------------------

  /** Behind the cursor the sync looked at these entries, in a table that holds everything the
      peer had at the start: at all of them, or at those in front of one whose dependency is not here. */
  ghost predicate SeenBehind(rules: Rules, t: Tables, kind: Kind, first: seq<Entry>, after: nat, seen: seq<Entry>) {
    exists last :: Prefixed(kind, first, last) && EndsAt(rules, t, Where(Beyond(after), last), seen)
  }

  ghost predicate AllSeenBehind(rules: Rules, t: Tables, peer: Peer, start: PeerState, seen: Passed) {
    forall kind :: SeenBehind(rules, t, kind, peer.log(0, kind), Cursor(start, kind), Part(seen, kind))
  }

  /** The errors are exactly the refused ones among the entries the sync looked at. */
  ghost predicate ErrorsCounted(rules: Rules, t: Tables, peer: Peer, start: PeerState, errors: nat) {
    exists seen :: AllSeenBehind(rules, t, peer, start, seen) && errors == TotalRefusals(rules, t, seen)
  }

  lemma BehindCursor(
    rules: Rules, t: Tables, kind: Kind, first: seq<Entry>, after: nat, part: seq<Entry>, seen: seq<Entry>)
    requires KindSeen(rules, t, kind, first, part, seen) && after == LastNumber(part)
    ensures SeenBehind(rules, t, kind, first, after, seen)
  {
    var last :| Prefixed(kind, first, last) && EndsAt(rules, t, last, part + seen);
    assert part <= part + seen <= last;
    LogParts(kind, last, part);
    RestBeyond(part, after, last[|part|..]);
    EndsBehind(rules, t, last, part, seen);
  }

  lemma EndsBehind(rules: Rules, t: Tables, last: seq<Entry>, part: seq<Entry>, seen: seq<Entry>)
    requires part <= last && EndsAt(rules, t, last, part + seen)
    ensures EndsAt(rules, t, last[|part|..], seen)
  {
    SettledAppend(rules, t, part, seen);
    assert (part + seen)[|part|..] == seen;
  }

  lemma ErrorsAre(c: Context, s: Standing, t: Tables, seen: Passed)
    requires Stands(c, s) && AllSeen(c.rules, t, c.peer, s.done, seen)
    ensures ErrorsCounted(c.rules, t, c.peer, s.state, TotalRefusals(c.rules, t, seen))
  {
    forall kind
      ensures SeenBehind(c.rules, t, kind, c.peer.log(0, kind), Cursor(s.state, kind), Part(seen, kind))
    {
      StandsParts(c, kind, s);
      BehindCursor(c.rules, t, kind, c.peer.log(0, kind), Cursor(s.state, kind), Part(s.done, kind), Part(seen, kind));
    }
  }

  ghost predicate Totals(t: Tables, result: SyncResult, u: Tables) {
    && Extends(t, u)
    && |u.records| == |t.records| + result.records
    && |u.batches| == |t.batches| + result.batches
    && |u.anchors| == |t.anchors| + result.anchors
  }

  lemma TotalsOf(
    t: Tables, records: nat, a: Tables, batches: nat, b: Tables, anchors: nat, u: Tables, result: SyncResult)
    requires Grew(t, Records, records, a) && Grew(a, Batches, batches, b) && Grew(b, Anchors, anchors, u)
    requires result.records == records && result.batches == batches && result.anchors == anchors
    ensures Totals(t, result, u)
  {
    ExtendsFurther(t, a, b);
    ExtendsFurther(t, b, u);
    assert Size(u, Records) == Size(b, Records) == Size(a, Records);
    assert Size(u, Batches) == Size(b, Batches) && Size(a, Batches) == Size(t, Batches);
    assert Size(b, Anchors) == Size(a, Anchors) == Size(t, Anchors);
  }

  /** Records wait for nothing, so their cursor is stored past everything there was. */
  lemma RecordsPassed(c: Context, s: Standing, a: Standing)
    requires KindReached(c, Records, s, a)
    ensures c.key in a.peers && a.peers[c.key] == a.state
    ensures exists last :: Prefixed(Records, c.peer.log(0, Records), last) && Part(a.done, Records) == last
  {
    var seen: seq<Entry>, last: seq<Entry> :| Reaches(c, Records, s, a, seen, last);
    var reach := Part(s.done, Records) + seen;
    assert forall i :: 0 <= i < |last| ==> last[i] in last && !Missing(a.t, last[i].item);
    assert reach == last;
  }

  ghost predicate AllPassed(entries: seq<Entry>, cursor: nat) {
    forall e :: e in entries ==> e.number <= cursor
  }

  /** The cursors a finished sync leaves in the database. */
  ghost predicate CursorsStored(peer: Peer, key: string, peers: map<string, PeerState>) {
    && key in peers && peers[key].peer == peer.name && Some(peers[key].epoch) == peer.epoch
    && AllPassed(peer.log(0, Records), peers[key].recordsSeq)
  }

  lemma PassedNumbers(c: Context, s: Standing, a: Standing)
    requires Stands(c, a) && KindReached(c, Records, s, a)
    ensures AllPassed(c.peer.log(0, Records), a.state.recordsSeq)
  {
    var part := Part(a.done, Records);
    RecordsPassed(c, s, a);
    StandsParts(c, Records, a);
    LogParts(Records, part, part);
    assert forall e :: e in c.peer.log(0, Records) ==> e in part;
  }

  lemma CursorsAreStored(c: Context, s: Standing, a: Standing, b: Standing, r: Standing)
    requires s.state.peer == c.peer.name && Some(s.state.epoch) == c.peer.epoch
    requires StateMoves(c, Records, s, a) && StateMoves(c, Batches, a, b) && StateMoves(c, Anchors, b, r)
    requires c.key in a.peers && a.peers[c.key] == a.state && AllPassed(c.peer.log(0, Records), a.state.recordsSeq)
    ensures CursorsStored(c.peer, c.key, r.peers)
  {
  }

  lemma StandsRemembers(c: Context, s: Standing)
    requires Stands(c, s) && c.peer.epoch.Some? && IsStateOf(s.state, c.peer, c.peer.epoch.value)
    ensures Remembers(c.rules, s.t, s.peers, c.key, c.peer, s.call)
    ensures RefusedSoFar(c.rules, s.t, s.peers, c.key, c.peer, s.call) <= s.errors
    ensures c.key in s.peers ==> IsStateOf(s.peers[c.key], c.peer, c.peer.epoch.value)
  {
    CoversPassed(c.rules, s.t, c.peer, s.call, s.state, s.done);
    FreshIsSound(c.rules, s.t, c.peer, s.call, c.peer.name, c.peer.epoch.value);
  }

  // ---- when a sync does not come to its end ---------------------------------------

  /** The page size asked for. */
  function PageSize(kind: Kind, pageSize: int): int {
    if kind == Batches then 1 else if pageSize < Largest(kind) then pageSize else Largest(kind)
  }

  /** How many entries so many full pages hold. */
  ghost function FullPages(pages: nat, limit: int): int {
    if pages == 0 then 0 else FullPages(pages - 1, limit) + limit
  }

  /** So many entries of the table, and it is in ingest order, lie behind the cursor. */
  ghost predicate LiesBehind(log: seq<Entry>, after: nat, count: int) {
    count > 0 ==> count <= |log| && log[|log| - count].number > after
  }

  /** The request made last, of so many. */
  function LastCall(calls: nat): nat {
    if calls == 0 then 0 else calls - 1
  }

  /** Why the loop of one table raises: its page size is refused, its last request was not
      answered, or it was never told that it had everything. */
  ghost predicate Fails(peer: Peer, kind: Kind, calls: nat, after: nat, limit: int, maxPages: int) {
    || maxPages <= 0
    || !(1 <= limit <= Largest(kind))
    || (calls > 0 && !peer.answered(LastCall(calls)))
    || (calls > 0 && LiesBehind(peer.log(LastCall(calls), kind), after, FullPages(maxPages, limit)))
  }

  /** One of the three loops cannot go on. */
  ghost predicate SomeKindFails(peer: Peer, start: PeerState, pageSize: int, maxPages: int, calls: nat) {
    exists kind :: Fails(peer, kind, calls, Cursor(start, kind), PageSize(kind, pageSize), maxPages)
  }

  lemma PageSizeFits(kind: Kind, pageSize: int)
    requires kind != Batches && 1 <= PageSize(kind, pageSize)
    ensures pageSize >= 1
  {
  }

  /** All of these requests were answered. */
  ghost predicate Answered(peer: Peer, from: nat, calls: nat) {
    forall i :: from <= i < calls ==> peer.answered(i)
  }

  lemma CeilingOverflows(c: Context, kind: Kind, s: Standing, seen: seq<Entry>, call: nat)
    requires Stands(c, s) && Part(s.done, kind) + seen <= c.peer.log(call, kind)
    ensures LiesBehind(c.peer.log(call, kind), Cursor(s.state, kind), |seen|)
  {
    StandsParts(c, kind, s);
    assert IsLog(kind, c.peer.log(call, kind));
    SeenBehindPart(kind, Part(s.done, kind), seen, c.peer.log(call, kind));
  }

  lemma SeenBehindPart(kind: Kind, part: seq<Entry>, seen: seq<Entry>, log: seq<Entry>)
    requires IsLog(kind, log) && part + seen <= log
    ensures LiesBehind(log, LastNumber(part), |seen|)
  {
    if seen != [] {
      assert part <= part + seen;
      LogParts(kind, log, part);
      var e := log[|log| - |seen|];
      assert e == log[|part|..][|log| - |seen| - |part|];
    }
  }

  /** `pages` full pages of one table were passed, one request each. */
  ghost predicate Turns(
    c: Context, kind: Kind, s: Standing, seen: seq<Entry>, r: Standing, limit: int, pages: nat)
  {
    && Stands(c, r) && Advances(c, kind, s, seen, r)
    && r.call == s.call + pages && Answered(c.peer, s.call, r.call)
    && |seen| == FullPages(pages, limit)
    && (pages > 0 ==> 1 <= limit <= Largest(kind) && Part(r.done, kind) <= c.peer.log(LastCall(r.call), kind))
  }

  /** How request `s.call` went. */
  ghost predicate PageEnds(
    c: Context, kind: Kind, limit: int, s: Standing, handled: seq<Entry>, end: PageEnd, r: Standing)
  {
    && (end == Broken <==> !c.peer.answered(s.call) || !(1 <= limit <= Largest(kind)))
    && if end == Broken then r == s.(call := s.call + 1)
       else
         && PageDone(c, kind, s, handled, end == Stopped, r)
         && (end == More ==> |handled| == limit)
         && (end == Done ==> Part(s.done, kind) + handled == c.peer.log(s.call, kind))
  }

  lemma FirstTurn(c: Context, kind: Kind, s: Standing, limit: int)
    requires Stands(c, s)
    ensures Turns(c, kind, s, [], s, limit, 0) && Grew(s.t, kind, 0, s.t)
  {
    ExtendsSelf(s.t);
    MovesNone(c, kind, s);
  }

  lemma AnsweredNext(peer: Peer, from: nat, calls: nat)
    requires Answered(peer, from, calls) && peer.answered(calls)
    ensures Answered(peer, from, calls + 1)
  {
  }

  lemma NextTurn(
    c: Context, kind: Kind, s: Standing, seen: seq<Entry>, r: Standing, limit: int, pages: nat, handled: seq<Entry>,
    q: Standing, more: seq<Entry>, next: nat)
    requires Turns(c, kind, s, seen, r, limit, pages) && PageEnds(c, kind, limit, r, handled, More, q) && Stands(c, q)
    requires more == seen + handled && next == pages + 1
    ensures Turns(c, kind, s, more, q, limit, next)
  {
    PageAdvances(c, kind, s, seen, r, handled, q);
    PageMoves(c, kind, r, handled, false, q);
    AnsweredNext(c.peer, s.call, r.call);
    OneMorePage(seen, handled, limit, pages, next);
    assert LastCall(q.call) == r.call;
  }

  lemma OneMorePage(rows: seq<Entry>, page: seq<Entry>, limit: int, pages: nat, next: nat)
    requires |rows| == FullPages(pages, limit) && |page| == limit && next == pages + 1
    ensures |rows + page| == FullPages(next, limit)
  {
  }

  /** What the loop of one table leaves behind, whether it raises or not. */
  ghost predicate KindSynced(
    c: Context, kind: Kind, limit: int, maxPages: int, s: Standing, ok: bool, accepted: nat, r: Standing)
  {
    && Stands(c, r) && StateMoves(c, kind, s, r) && Grew(s.t, kind, accepted, r.t)
    && (ok ==> KindReached(c, kind, s, r) && Answered(c.peer, s.call, r.call) && r.call <= s.call + maxPages)
    && (ok ==> 1 <= limit <= Largest(kind) && maxPages >= 1)
    && (!ok ==> Fails(c.peer, kind, r.call, Cursor(s.state, kind), limit, maxPages))
  }

  lemma LastTurn(
    c: Context, kind: Kind, s: Standing, accepted: nat, seen: seq<Entry>, r: Standing, limit: int, pages: nat,
    maxPages: int, handled: seq<Entry>, end: PageEnd, q: Standing)
    requires Turns(c, kind, s, seen, r, limit, pages) && pages < maxPages
    requires PageEnds(c, kind, limit, r, handled, end, q)
    requires (end == Stopped || end == Done) && Stands(c, q) && Grew(s.t, kind, accepted, q.t)
    ensures KindSynced(c, kind, limit, maxPages, s, true, accepted, q)
  {
    AnsweredNext(c.peer, s.call, r.call);
    PageReaches(c, kind, s, seen, r, handled, end == Stopped, q);
  }

  lemma BrokenTurn(
    c: Context, kind: Kind, s: Standing, accepted: nat, seen: seq<Entry>, r: Standing, limit: int, pages: nat,
    maxPages: int, handled: seq<Entry>, q: Standing)
    requires Turns(c, kind, s, seen, r, limit, pages) && PageEnds(c, kind, limit, r, handled, Broken, q)
    requires Grew(s.t, kind, accepted, q.t)
    ensures KindSynced(c, kind, limit, maxPages, s, false, accepted, q)
  {
    BrokenStands(c, kind, r, q);
    MovesTwice(c, kind, s, r, q);
  }

  lemma PageTurned(
    c: Context, kind: Kind, s: Standing, accepted: nat, seen: seq<Entry>, r: Standing, limit: int, pages: nat,
    maxPages: int, handled: seq<Entry>, end: PageEnd, q: Standing, more: seq<Entry>, next: nat)
    requires Turns(c, kind, s, seen, r, limit, pages) && pages < maxPages
    requires PageEnds(c, kind, limit, r, handled, end, q) && more == seen + handled && next == pages + 1
    requires Stands(c, q) && Grew(s.t, kind, accepted, q.t)
    ensures if end == More then Turns(c, kind, s, more, q, limit, next)
            else KindSynced(c, kind, limit, maxPages, s, end != Broken, accepted, q)
  {
    match end {
      case More => NextTurn(c, kind, s, seen, r, limit, pages, handled, q, more, next);
      case Broken => BrokenTurn(c, kind, s, accepted, seen, r, limit, pages, maxPages, handled, q);
      case Stopped => LastTurn(c, kind, s, accepted, seen, r, limit, pages, maxPages, handled, end, q);
      case Done => LastTurn(c, kind, s, accepted, seen, r, limit, pages, maxPages, handled, end, q);
    }
  }

  lemma CeilingReached(
    c: Context, kind: Kind, s: Standing, accepted: nat, seen: seq<Entry>, r: Standing, limit: int, pages: nat,
    maxPages: int)
    requires Stands(c, s) && Turns(c, kind, s, seen, r, limit, pages) && Grew(s.t, kind, accepted, r.t)
    requires maxPages <= 0 || pages == maxPages
    ensures KindSynced(c, kind, limit, maxPages, s, false, accepted, r)
  {
    if 0 < pages == maxPages {
      CeilingOverflows(c, kind, s, seen, LastCall(r.call));
    }
  }

  /** What a sync that came to its end has done, from one standing to the other. */
  ghost predicate Synchronised(c: Context, s: Standing, result: SyncResult, r: Standing) {
    && r.errors == s.errors + result.errors
    && Totals(s.t, result, r.t)
    && ErrorsCounted(c.rules, r.t, c.peer, s.state, result.errors)
    && Replicated(c.rules, r.t, c.peer.log(0, Records), c.peer.log(0, Batches), c.peer.log(0, Anchors), r.errors)
    && CursorsStored(c.peer, c.key, r.peers)
  }

  /** What a sync keeps from table to table: the states of other peers, whose state this is, and
      everything stored. */
  ghost predicate Carried(c: Context, t: Tables, peers: map<string, PeerState>, s: Standing) {
    && OthersKept(peers, c.key, s.peers) && Extends(t, s.t)
    && c.peer.epoch.Some? && IsStateOf(s.state, c.peer, c.peer.epoch.value)
  }

  lemma CarriedOn(
    c: Context, kind: Kind, limit: int, maxPages: int, t: Tables, peers: map<string, PeerState>, s: Standing, ok: bool,
    accepted: nat, r: Standing)
    requires Carried(c, t, peers, s) && KindSynced(c, kind, limit, maxPages, s, ok, accepted, r)
    ensures Carried(c, t, peers, r)
  {
    ExtendsFurther(t, s.t, r.t);
  }

  lemma ThreeReplicated(
    c: Context, s: Standing, records: nat, a: Standing, batches: nat, b: Standing, anchors: nat, r: Standing)
    requires ThreeReached(c, s, a, b, r) && ThreeGrew(s, records, a, batches, b, anchors, r)
    ensures r.errors >= s.errors && ErrorsCounted(c.rules, r.t, c.peer, s.state, r.errors - s.errors)
    ensures Replicated(c.rules, r.t, c.peer.log(0, Records), c.peer.log(0, Batches), c.peer.log(0, Anchors), r.errors)
  {
    var seen := ThreeSeen(c, s, records, a, batches, b, anchors, r);
    ErrorsAre(c, s, r.t, seen);
    AllReplicated(c.rules, r.t, c.peer, s.done, seen, r.errors);
  }

  lemma ThreeSynchronised(c: Context, s: Standing, a: Standing, b: Standing, r: Standing, result: SyncResult)
    requires ThreeReached(c, s, a, b, r) && ThreeGrew(s, result.records, a, result.batches, b, result.anchors, r)
    requires r.errors == s.errors + result.errors
    requires c.peer.epoch.Some? && IsStateOf(s.state, c.peer, c.peer.epoch.value)
    ensures Synchronised(c, s, result, r)
  {
    ThreeReplicated(c, s, result.records, a, result.batches, b, result.anchors, r);
    TotalsOf(s.t, result.records, a.t, result.batches, b.t, result.anchors, r.t, result);
    CursorsSynchronised(c, s, a, b, r);
  }

  lemma CursorsSynchronised(c: Context, s: Standing, a: Standing, b: Standing, r: Standing)
    requires ThreeReached(c, s, a, b, r)
    requires c.peer.epoch.Some? && IsStateOf(s.state, c.peer, c.peer.epoch.value)
    ensures CursorsStored(c.peer, c.key, r.peers)
  {
    PassedNumbers(c, s, a);
    RecordsPassed(c, s, a);
    CursorsAreStored(c, s, a, b, r);
  }

  /** All three loops came to their ends. */
  lemma AllThree(
    c: Context, s: Standing, a: Standing, b: Standing, r: Standing, result: SyncResult, pageSize: int, maxPages: int)
    requires Stands(c, s) && s.call == 0 && r.errors == s.errors + result.errors
    requires c.peer.epoch.Some? && IsStateOf(s.state, c.peer, c.peer.epoch.value)
    requires KindSynced(c, Records, PageSize(Records, pageSize), maxPages, s, true, result.records, a)
    requires KindSynced(c, Batches, PageSize(Batches, pageSize), maxPages, a, true, result.batches, b)
    requires KindSynced(c, Anchors, PageSize(Anchors, pageSize), maxPages, b, true, result.anchors, r)
    ensures Synchronised(c, s, result, r)
    ensures Answered(c.peer, 0, r.call) && pageSize >= 1 && maxPages >= 1
  {
    PageSizeFits(Records, pageSize);
    ThreeSynchronised(c, s, a, b, r, result);
  }

  /** One of the loops raised. */
  lemma OneFails(
    c: Context, kind: Kind, start: PeerState, s: Standing, accepted: nat, r: Standing, pageSize: int, maxPages: int)
    requires KindSynced(c, kind, PageSize(kind, pageSize), maxPages, s, false, accepted, r)
    requires Cursor(s.state, kind) == Cursor(start, kind)
    ensures Stands(c, r) && SomeKindFails(c.peer, start, pageSize, maxPages, r.call)
  {
  }

  lemma CursorsApart(c: Context, s: Standing, a: Standing, b: Standing)
    requires StateMoves(c, Records, s, a) && StateMoves(c, Batches, a, b)
    ensures Cursor(a.state, Batches) == Cursor(s.state, Batches)
    ensures Cursor(b.state, Anchors) == Cursor(s.state, Anchors)
  {
  }

  // ---- what a call of `sync_peer` promises ----------------------------------------

  /** What every call keeps, however it ends: nothing goes, the states of other peers stay, the
      cursors it leaves are sound, and of the entries at or below them no more are refused than
      were before and than it has counted. */
  ghost predicate KeepsCount(
    rules: Rules, t: Tables, peers: map<string, PeerState>, key: string, peer: Peer, calls: nat, errors: nat,
    u: Tables, after: map<string, PeerState>)
  {
    var epoch := peer.epoch.GetOr("");
    && Extends(t, u) && OthersKept(peers, key, after)
    && Remembers(rules, u, after, key, peer, calls)
    && RefusedSoFar(rules, u, after, key, peer, calls) <= RefusedSoFar(rules, t, peers, key, peer, 0) + errors
    && (if epoch == "" then u == t && after == peers else key in after ==> IsStateOf(after[key], peer, epoch))
  }

  /** A call that returns: the counts are the growth of the tables, the errors are exactly the
      refused entries among those it looked at, and what the peer had at its start is replicated. */
  ghost predicate Returns(
    rules: Rules, t: Tables, peers: map<string, PeerState>, key: string, peer: Peer, pageSize: int, maxPages: int,
    calls: nat, result: SyncResult, u: Tables, after: map<string, PeerState>)
  {
    var epoch, counted := peer.epoch.GetOr(""), RefusedSoFar(rules, t, peers, key, peer, 0) + result.errors;
    && epoch != "" && pageSize >= 1 && maxPages >= 1 && Answered(peer, 0, calls)
    && (result.reset <==> key in peers && !IsStateOf(peers[key], peer, epoch))
    && Totals(t, result, u)
    && ErrorsCounted(rules, u, peer, StartOf(peers, key, peer, epoch), result.errors)
    && Replicated(rules, u, peer.log(0, Records), peer.log(0, Batches), peer.log(0, Anchors), counted)
    && CursorsStored(peer, key, after)
  }

  /** Why a call raises: the peer tells no epoch, or one of the three loops cannot go on. */
  ghost predicate Raises(
    peers: map<string, PeerState>, key: string, peer: Peer, pageSize: int, maxPages: int, calls: nat)
  {
    var epoch := peer.epoch.GetOr("");
    || epoch == ""
    || SomeKindFails(peer, StartOf(peers, key, peer, epoch), pageSize, maxPages, calls)
  }

  /** How a call ends that has refused so many items. */
  ghost predicate Ends(
    rules: Rules, t: Tables, peers: map<string, PeerState>, key: string, peer: Peer, pageSize: int, maxPages: int,
    outcome: SyncOutcome, calls: nat, errors: nat, u: Tables, after: map<string, PeerState>)
  {
    match outcome
    case Synced(result) =>
      && errors == result.errors
      && Returns(rules, t, peers, key, peer, pageSize, maxPages, calls, result, u, after)
    case Failed => Raises(peers, key, peer, pageSize, maxPages, calls)
  }

  /** What the loop over the three tables leaves, from the standing it starts with. */
  ghost predicate TablesSynced(
    c: Context, s: Standing, peers: map<string, PeerState>, pageSize: int, maxPages: int, ok: bool, result: SyncResult,
    r: Standing)
  {
    && Stands(c, r) && Carried(c, s.t, peers, r) && s.errors <= r.errors
    && (ok ==> Synchronised(c, s, result.(reset := false), r))
    && (ok ==> Answered(c.peer, 0, r.call) && pageSize >= 1 && maxPages >= 1)
    && (!ok ==> SomeKindFails(c.peer, s.state, pageSize, maxPages, r.call))
  }

  /** The sync starts from what the node has stored for this log. */
  ghost predicate StartsFrom(c: Context, peers: map<string, PeerState>, s: Standing) {
    && c.peer.epoch.GetOr("") != ""
    && s.state == StartOf(peers, c.key, c.peer, c.peer.epoch.value)
    && s.errors == RefusedSoFar(c.rules, s.t, peers, c.key, c.peer, 0)
  }

  lemma CallKeeps(
    c: Context, s: Standing, peers: map<string, PeerState>, pageSize: int, maxPages: int, ok: bool, result: SyncResult,
    r: Standing, errors: nat)
    requires StartsFrom(c, peers, s) && TablesSynced(c, s, peers, pageSize, maxPages, ok, result, r)
    requires errors == r.errors - s.errors
    ensures KeepsCount(c.rules, s.t, peers, c.key, c.peer, r.call, errors, r.t, r.peers)
  {
    StandsRemembers(c, r);
  }

  lemma CallEnds(
    c: Context, s: Standing, peers: map<string, PeerState>, pageSize: int, maxPages: int, ok: bool, result: SyncResult,
    r: Standing, errors: nat)
    requires StartsFrom(c, peers, s) && TablesSynced(c, s, peers, pageSize, maxPages, ok, result, r)
    requires result.reset <==> c.key in peers && !IsStateOf(peers[c.key], c.peer, c.peer.epoch.value)
    requires errors == r.errors - s.errors
    ensures Ends(c.rules, s.t, peers, c.key, c.peer, pageSize, maxPages, if ok then Synced(result) else Failed, r.call,
                 errors, r.t, r.peers)
  {
  }
}
