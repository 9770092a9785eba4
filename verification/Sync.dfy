/** The loops of `sync_peer` (hap/sync.py:95-194). */
module Sync {
  import opened Bytes
  import opened Batches
  import opened Tables
  import opened Runs
  import opened NodeStorage
  import opened Service
  import opened Steps
  import opened Replication

  method ImportOneRecord(service: HistoryAnchorService, r: Record, ghost from: Tables) returns (outcome: Outcome)
    requires service.Valid() && Leads(service.rules, from, service.storage.State())
    modifies service.storage`records
    ensures service.Valid() && Leads(service.rules, from, service.storage.State())
    ensures Imported(service.rules, old(service.storage.State()), RecordItem(r), outcome, service.storage.State())
  {
    ghost var t := service.storage.State();
    outcome := service.SubmitRecord(r, false, None);
    if outcome == Accepted {
      RecordStored(service.rules, t, r, service.storage.State());
      StepLeads(service.rules, from, t, Grown, service.storage.State());
    } else {
      assert service.storage.State() == t;
      NothingImported(service.rules, t, RecordItem(r), outcome);
    }
  }

  method ImportOneBatch(service: HistoryAnchorService, b: Batch, ghost from: Tables) returns (outcome: Outcome)
    requires service.Valid() && Leads(service.rules, from, service.storage.State())
    modifies service.storage`batches, service.storage`recordBatches
    ensures service.Valid() && Leads(service.rules, from, service.storage.State())
    ensures Imported(service.rules, old(service.storage.State()), BatchItem(b), outcome, service.storage.State())
  {
    ghost var t := service.storage.State();
    outcome := service.ImportBatch(b);
    if outcome == Accepted || outcome == AlreadyExists {
      BatchStored(service.rules, t, b, outcome, service.storage.State());
      BatchKeeps(service.rules, t, b);
      StepLeads(service.rules, from, t, Grown, service.storage.State());
    } else {
      NothingImported(service.rules, t, BatchItem(b), outcome);
    }
  }

  method ImportOneReference(service: HistoryAnchorService, a: Anchor, ghost from: Tables) returns (outcome: Outcome)
    requires service.Valid() && Leads(service.rules, from, service.storage.State())
    modifies service.storage`anchors
    ensures service.Valid() && Leads(service.rules, from, service.storage.State())
    ensures Imported(service.rules, old(service.storage.State()), AnchorItem(a), outcome, service.storage.State())
  {
    ghost var t := service.storage.State();
    outcome := service.ImportAnchorReference(a);
    if outcome == Accepted || outcome == AlreadyExists {
      AnchorStored(service.rules, t, a, outcome, service.storage.State());
      StepLeads(service.rules, from, t, Referenced(a), service.storage.State());
    } else {
      if outcome == Rejected && ValidAnchorReference(a) {
        WhyRefused(service.rules, t, a);
      }
      NothingImported(service.rules, t, AnchorItem(a), outcome);
    }
  }

  /** What the three import functions of the loop have in common. */
  method ImportItem(service: HistoryAnchorService, item: Item, ghost from: Tables) returns (outcome: Outcome)
    requires service.Valid() && Leads(service.rules, from, service.storage.State())
    modifies service.storage`records, service.storage`batches, service.storage`recordBatches, service.storage`anchors
    ensures service.Valid() && Leads(service.rules, from, service.storage.State())
    ensures Imported(service.rules, old(service.storage.State()), item, outcome, service.storage.State())
  {
    match item {
      case RecordItem(r) => outcome := ImportOneRecord(service, r, from);
      case BatchItem(b) => outcome := ImportOneBatch(service, b, from);
      case AnchorItem(a) => outcome := ImportOneReference(service, a, from);
    }
  }

  /** The loop over the items of one page; `n` of them are handled. */
  method ImportPage(service: HistoryAnchorService, kind: Kind, entries: seq<Entry>, ghost from: Tables)
    returns (missing: bool, accepted: nat, errors: nat, ghost n: nat)
    requires service.Valid() && Leads(service.rules, from, service.storage.State()) && ItemsOf(kind, entries)
    modifies service.storage`records, service.storage`batches, service.storage`recordBatches, service.storage`anchors
    ensures service.Valid() && Leads(service.rules, from, service.storage.State())
    ensures HandledUpTo(service.rules, old(service.storage.State()), kind, entries, n, accepted, errors,
                        service.storage.State())
    ensures missing <==> n < |entries|
  {
    ghost var before := service.storage.State();
    missing, accepted, errors, n := false, 0, 0, 0;
    NoneHandled(service.rules, before, kind);
    for i := 0 to |entries|
      invariant service.Valid() && Leads(service.rules, from, service.storage.State())
      invariant !missing && n == i
      invariant Handled(service.rules, before, kind, entries[..i], accepted, errors, service.storage.State())
    {
      ghost var t := service.storage.State();
      var outcome := ImportItem(service, entries[i].item, from);
      if outcome == MissingDependency {
        StoppedHandled(service.rules, before, kind, entries[..i], accepted, errors, t, entries[i],
                       service.storage.State());
        missing := true;
        break;
      }
      OneMoreHandled(service.rules, before, kind, entries[..i], accepted, errors, t, entries[i], outcome,
                     service.storage.State());
      assert entries[..i + 1] == entries[..i] + [entries[i]];
      if outcome == Accepted {
        accepted := accepted + 1;
      } else if outcome == Rejected {
        errors := errors + 1;
      }
      n := n + 1;
    }
  }

  /** Importing one page and, unless a dependency is missing, storing the new cursor. */
  method FinishPage(
    service: HistoryAnchorService, key: string, kind: Kind, page: Page, state: PeerState, ghost c: Context,
    ghost s: Standing)
    returns (missing: bool, next: PeerState, accepted: nat, errors: nat, ghost handled: seq<Entry>, ghost r: Standing)
    requires c.key == key && s.state == state && ItemsOf(kind, page.entries)
    requires Part(s.done, kind) + page.entries <= c.peer.log(s.call, kind)
    requires page.cursor == LastNumber(Part(s.done, kind) + page.entries)
    requires c.rules == service.rules && s.t == service.storage.State() && s.peers == service.storage.peers
    requires Stands(c, s) && Leads(c.rules, c.from, s.t)
    modifies service.storage`records, service.storage`batches, service.storage`recordBatches, service.storage`anchors
    modifies service.storage`peers
    ensures r.t == service.storage.State() && r.peers == service.storage.peers && r.errors == s.errors + errors
    ensures r.state == next && PageDone(c, kind, s, handled, missing, r) && Grew(s.t, kind, accepted, r.t)
    ensures !missing ==> handled == page.entries
    ensures Leads(c.rules, c.from, r.t)
  {
    ghost var n;
    missing, accepted, errors, n := ImportPage(service, kind, page.entries, c.from);
    handled := page.entries[..n];
    PageHandled(c, kind, s, page.entries, n, accepted, errors, service.storage.State());
    next := state;
    if !missing {
      next := WithCursor(state, kind, page.cursor);
      service.storage.SetPeerState(key, next);
    }
    // otherwise records or batches may have appeared on the peer meanwhile: the cursor stays
    r := Standing(service.storage.State(), service.storage.peers, s.call + 1, next,
                  if missing then s.done else WithPart(s.done, kind, Part(s.done, kind) + handled), s.errors + errors);
  }

  /** One turn of the page loop. */
  method SyncPage(
    service: HistoryAnchorService, key: string, peer: Peer, kind: Kind, limit: int, state: PeerState, call: nat,
    ghost c: Context, ghost s: Standing)
    returns (end: PageEnd, next: PeerState, accepted: nat, errors: nat, ghost handled: seq<Entry>, ghost r: Standing)
    requires c.key == key && c.peer == peer && s.state == state && s.call == call
    requires c.rules == service.rules && s.t == service.storage.State() && s.peers == service.storage.peers
    requires Stands(c, s) && Leads(c.rules, c.from, s.t)
    modifies service.storage`records, service.storage`batches, service.storage`recordBatches, service.storage`anchors
    modifies service.storage`peers
    ensures r.t == service.storage.State() && r.peers == service.storage.peers && r.errors == s.errors + errors
    ensures r.state == next && r.call == call + 1 && Stands(c, r) && Grew(s.t, kind, accepted, r.t)
    ensures Leads(c.rules, c.from, r.t)
    ensures PageEnds(c, kind, limit, s, handled, end, r)
  {
    StandsParts(c, kind, s);
    var current := Cursor(state, kind);
    var answer := if peer.answered(call) then Serve(kind, peer.log(call, kind), current, limit) else None;
    if answer.None? {
      end, next, accepted, errors, handled, r := Broken, state, 0, 0, [], s.(call := call + 1);
      BrokenStands(c, kind, s, r);
    } else {
      var page := answer.value;
      ghost var entries := PageServed(kind, peer.log(call, kind), Part(s.done, kind), limit);
      if page.entries != [] && page.cursor <= current {
        // the peer's cursor failed to advance: an honest peer never does this
        assert false;
      }
      var missing;
      missing, next, accepted, errors, handled, r := FinishPage(service, key, kind, page, state, c, s);
      PageStands(c, kind, s, handled, missing, r);
      end := if missing then Stopped else if page.hasMore then More else Done;
    }
  }

  /** The page loop for one table; not `ok` when it raises. */
  method SyncKind(
    service: HistoryAnchorService, key: string, peer: Peer, kind: Kind, limit: int, maxPages: int, start: PeerState,
    first: nat, ghost c: Context, ghost s: Standing)
    returns (ok: bool, state: PeerState, call: nat, accepted: nat, errors: nat, ghost r: Standing)
    requires c.key == key && c.peer == peer && s.state == start && s.call == first
    requires c.rules == service.rules && s.t == service.storage.State() && s.peers == service.storage.peers
    requires Stands(c, s) && Leads(c.rules, c.from, s.t)
    modifies service.storage`records, service.storage`batches, service.storage`recordBatches, service.storage`anchors
    modifies service.storage`peers
    ensures r.t == service.storage.State() && r.peers == service.storage.peers && r.errors == s.errors + errors
    ensures r.state == state && r.call == call
    ensures KindSynced(c, kind, limit, maxPages, s, ok, accepted, r) && Leads(c.rules, c.from, r.t)
  {
    r := s;
    FirstTurn(c, kind, s, limit);
    ok, state, call, accepted, errors := false, start, first, 0, 0;
    var pages, end := 0, More;
    ghost var seen: seq<Entry> := [];
    while pages < maxPages && end == More
      invariant 0 <= pages && (maxPages > 0 ==> pages <= maxPages)
      invariant r.t == service.storage.State() && r.peers == service.storage.peers && r.errors == s.errors + errors
      invariant r.state == state && r.call == call && Leads(c.rules, c.from, r.t)
      invariant if end == More then Turns(c, kind, s, seen, r, limit, pages) && Grew(s.t, kind, accepted, r.t)
                else KindSynced(c, kind, limit, maxPages, s, end != Broken, accepted, r)
    {
      ghost var before := r;
      var moreAccepted, moreErrors;
      ghost var handled;
      end, state, moreAccepted, moreErrors, handled, r := SyncPage(service, key, peer, kind, limit, state, call, c, r);
      GrewTwice(s.t, kind, accepted, before.t, moreAccepted, r.t);
      call, accepted, errors := call + 1, accepted + moreAccepted, errors + moreErrors;
      PageTurned(c, kind, s, accepted, seen, before, limit, pages, maxPages, handled, end, r, seen + handled,
                 pages + 1);
      pages, seen := pages + 1, seen + handled;
    }
    ok := end != More && end != Broken;
    if end == More {
      CeilingReached(c, kind, s, accepted, seen, r, limit, pages, maxPages);
    }
  }

  /** The state a sync starts from: the stored one, unless it belongs to another log. */
  method StartState(storage: Storage, key: string, peer: Peer, epoch: string, ghost c: Context)
    returns (state: PeerState, reset: bool, ghost s: Standing)
    requires peer.epoch == Some(epoch) && c.key == key && c.peer == peer && AppendOnly(peer)
    requires Wellformed(c.rules, storage.State())
    requires Remembers(c.rules, storage.State(), storage.peers, key, peer, 0)
    modifies storage`peers
    ensures s.t == storage.State() && s.peers == storage.peers && s.call == 0 && s.state == state
    ensures s.errors == RefusedSoFar(c.rules, s.t, old(storage.peers), key, peer, 0)
    ensures Stands(c, s) && Carried(c, s.t, old(storage.peers), s)
    ensures state == StartOf(old(storage.peers), key, peer, epoch)
    ensures reset <==> key in old(storage.peers) && !IsStateOf(old(storage.peers)[key], peer, epoch)
    ensures storage.peers == if reset then old(storage.peers)[key := state] else old(storage.peers)
  {
    ghost var done := StartIsSound(c.rules, storage.State(), storage.peers, key, peer, epoch);
    ghost var past := RefusedSoFar(c.rules, storage.State(), storage.peers, key, peer, 0);
    ExtendsSelf(storage.State());
    state := if key in storage.peers then storage.peers[key] else FreshState(peer.name, epoch);
    reset := false;
    if state.epoch != epoch || state.peer != peer.name {
      state := FreshState(peer.name, epoch);
      reset := true;
      storage.SetPeerState(key, state);
    }
    s := Standing(storage.State(), storage.peers, 0, state, done, past);
  }

  /** The loop over the three tables. */
  method SyncTables(
    service: HistoryAnchorService, key: string, peer: Peer, pageSize: int, maxPages: int, start: PeerState,
    ghost c: Context, ghost peers: map<string, PeerState>, ghost s: Standing)
    returns (ok: bool, calls: nat, result: SyncResult, ghost r: Standing)
    requires c.key == key && c.peer == peer && s.state == start && s.call == 0
    requires c.rules == service.rules && s.t == service.storage.State() && s.peers == service.storage.peers
    requires Stands(c, s) && Leads(c.rules, c.from, s.t) && Carried(c, s.t, peers, s)
    modifies service.storage`records, service.storage`batches, service.storage`recordBatches, service.storage`anchors
    modifies service.storage`peers
    ensures r.t == service.storage.State() && r.peers == service.storage.peers && r.call == calls
    ensures TablesSynced(c, s, peers, pageSize, maxPages, ok, result, r) && Leads(c.rules, c.from, r.t)
  {
    result := SyncResult(0, 0, 0, 0, false);
    var state, records, batches, anchors, recordErrors, batchErrors, anchorErrors;
    ghost var a, b;
    ok, state, calls, records, recordErrors, a :=
      SyncKind(service, key, peer, Records, PageSize(Records, pageSize), maxPages, start, 0, c, s);
    r := a;
    CarriedOn(c, Records, PageSize(Records, pageSize), maxPages, s.t, peers, s, ok, records, a);
    if !ok {
      OneFails(c, Records, start, s, records, a, pageSize, maxPages);
    } else {
      ok, state, calls, batches, batchErrors, b :=
        SyncKind(service, key, peer, Batches, PageSize(Batches, pageSize), maxPages, state, calls, c, a);
      r := b;
      CarriedOn(c, Batches, PageSize(Batches, pageSize), maxPages, s.t, peers, a, ok, batches, b);
      CursorsApart(c, s, a, b);
      if !ok {
        OneFails(c, Batches, start, a, batches, b, pageSize, maxPages);
      } else {
        ok, state, calls, anchors, anchorErrors, r :=
          SyncKind(service, key, peer, Anchors, PageSize(Anchors, pageSize), maxPages, state, calls, c, b);
        CarriedOn(c, Anchors, PageSize(Anchors, pageSize), maxPages, s.t, peers, b, ok, anchors, r);
        if !ok {
          OneFails(c, Anchors, start, b, anchors, r, pageSize, maxPages);
        } else {
          result := SyncResult(records, batches, anchors, recordErrors + batchErrors + anchorErrors, false);
          AllThree(c, s, a, b, r, result, pageSize, maxPages);
        }
      }
    }
  }

  /** `sync_peer` once the peer has told its epoch. */
  method SyncEpoch(
    service: HistoryAnchorService, key: string, peer: Peer, epoch: string, pageSize: int, maxPages: int,
    ghost c: Context)
    returns (ok: bool, calls: nat, result: SyncResult, ghost s: Standing, ghost r: Standing)
    requires service.Valid() && AppendOnly(peer) && peer.epoch == Some(epoch) && epoch != ""
    requires Remembers(service.rules, service.storage.State(), service.storage.peers, key, peer, 0)
    requires c == Context(service.rules, key, peer, service.storage.State())
    modifies service.storage`records, service.storage`batches, service.storage`recordBatches, service.storage`anchors
    modifies service.storage`peers
    ensures s.t == c.from && StartsFrom(c, old(service.storage.peers), s)
    ensures r.t == service.storage.State() && r.peers == service.storage.peers && r.call == calls
    ensures Leads(c.rules, c.from, r.t)
    ensures TablesSynced(c, s, old(service.storage.peers), pageSize, maxPages, ok, result, r)
    ensures result.reset <==>
              key in old(service.storage.peers) && !IsStateOf(old(service.storage.peers)[key], peer, epoch)
  {
    ghost var peers := service.storage.peers;
    var state, reset;
    NoStepLeads(service.rules, service.storage.State());
    state, reset, s := StartState(service.storage, key, peer, epoch, c);
    ok, calls, result, r := SyncTables(service, key, peer, pageSize, maxPages, state, c, peers, s);
    result := result.(reset := reset);
  }

  /** `sync_peer`. The result says how many requests were made and how many items were refused,
      also for a call that raises. */
  method SyncPeer(service: HistoryAnchorService, key: string, peer: Peer, pageSize: int, maxPages: int)
    returns (outcome: SyncOutcome, calls: nat, ghost errors: nat)
    requires service.Valid() && AppendOnly(peer)
    requires Remembers(service.rules, service.storage.State(), service.storage.peers, key, peer, 0)
    modifies service.storage`records, service.storage`batches, service.storage`recordBatches, service.storage`anchors
    modifies service.storage`peers
    ensures service.Valid() && Leads(service.rules, old(service.storage.State()), service.storage.State())
    ensures KeepsCount(service.rules, old(service.storage.State()), old(service.storage.peers), key, peer, calls,
                       errors, service.storage.State(), service.storage.peers)
    ensures Ends(service.rules, old(service.storage.State()), old(service.storage.peers), key, peer, pageSize, maxPages,
                 outcome, calls, errors, service.storage.State(), service.storage.peers)
  {
    ghost var peers := service.storage.peers;
    calls, errors, outcome := 0, 0, Failed;
    if peer.epoch.None? || peer.epoch.value == "" {
      NoStepLeads(service.rules, service.storage.State());
      ExtendsSelf(service.storage.State());
    } else {
      var ok, result;
      ghost var s, r;
      ghost var c := Context(service.rules, key, peer, service.storage.State());
      ok, calls, result, s, r := SyncEpoch(service, key, peer, peer.epoch.value, pageSize, maxPages, c);
      errors := r.errors - s.errors;
      CallKeeps(c, s, peers, pageSize, maxPages, ok, result, r, errors);
      CallEnds(c, s, peers, pageSize, maxPages, ok, result, r, errors);
      outcome := if ok then Synced(result) else Failed;
    }
  }
}
