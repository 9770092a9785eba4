/** The node's database (hap/storage.py): one field per table, one method per statement or
    transaction. `State` is the value the laws speak about. */
module NodeStorage {
  import opened Bytes
  import opened Batches
  import T = Tables

  /** Where replication from one peer stands. */
  datatype PeerState = PeerState(peer: string, epoch: string, recordsSeq: nat, batchesSeq: nat, anchorsSeq: nat)

  class Storage {
    var records: seq<Record>
    var batches: seq<Batch>
    var recordBatches: map<(string, string), nat>
    var anchors: seq<T.Anchor>
    var blocks: map<nat, T.BlockRow>
    var commitments: seq<T.CommitmentRow>
    var peers: map<string, PeerState>

    constructor ()
      ensures State() == T.EMPTY && peers == map[]
    {
      records, batches, recordBatches := [], [], map[];
      anchors, blocks, commitments := [], map[], [];
      peers := map[];
    }

    ghost function State(): T.Tables
      reads this`records, this`batches, this`recordBatches, this`anchors, this`blocks, this`commitments
    {
      T.Tables(records, batches, recordBatches, anchors, blocks, commitments)
    }

    predicate HasRecord(id: string)
      reads this`records
      ensures HasRecord(id) <==> exists r :: r in records && r.id == id
    {
      T.Row(T.RecordIdOf, records, id).Some?
    }

    method AddRecord(r: Record) returns (added: bool)
      modifies this`records
      ensures added == !old(HasRecord(r.id))
      ensures records == old(records) + (if added then [r] else [])
    {
      added := !HasRecord(r.id);
      if added {
        records := records + [r];
      }
    }

    function FindBatch(batchId: string): Option<Batch>
      reads this`batches
    {
      T.Row(T.BatchIdOf, batches, batchId)
    }

    method AddBatch(b: Batch) returns (added: bool)
      modifies this`batches, this`recordBatches
      ensures State() == T.AddBatch(old(State()), b)
      ensures added == old(FindBatch(b.batchId)).None?
    {
      added := FindBatch(b.batchId).None?;
      if added {
        batches := batches + [b];
      }
      recordBatches := T.LinkRecords(recordBatches, b.batchId, b.recordIds, 0);
    }

    function FindAnchor(point: T.Outpoint): Option<T.Anchor>
      reads this`anchors
    {
      T.Row(T.AnchorKey, anchors, point)
    }

    /** The anchors of one batch in ingest order; an empty identifier asks for all. */
    function AnchorsOf(batchId: string): seq<T.Anchor>
      reads this`anchors
    {
      if batchId == "" then anchors else T.Where(T.AnchorsBatch(batchId), anchors)
    }

    method AddAnchor(a: T.Anchor) returns (added: bool)
      modifies this`anchors
      ensures State() == old(State()).(anchors := T.AddAnchor(old(anchors), a))
      ensures added <==> forall x :: x in old(anchors) ==> T.AnchorKey(x) != T.AnchorKey(a)
      ensures T.Unique(T.AnchorKey, old(anchors)) ==>
                T.Unique(T.AnchorKey, anchors) && T.Upserted(T.AnchorKey, old(anchors), a, anchors)
    {
      if T.Unique(T.AnchorKey, anchors) {
        T.UpsertInPlace(T.AnchorKey, anchors, a);
      }
      added := FindAnchor(T.AnchorKey(a)).None?;
      anchors := T.AddAnchor(anchors, a);
    }

    method AddScannedBlock(height: nat, hash: string, time: int)
      modifies this`blocks
      ensures State() == old(State()).(blocks := T.AddScannedBlock(old(blocks), height, T.BlockRow(hash, time)))
      ensures height in blocks && blocks[height] == T.BlockRow(hash, time)
      ensures forall h :: h != height ==> (h in blocks <==> h in old(blocks) && old(blocks)[h].hash != hash)
      ensures forall h :: h != height && h in blocks ==> blocks[h] == old(blocks)[h]
    {
      blocks := T.AddScannedBlock(blocks, height, T.BlockRow(hash, time));
    }

    method AddCommitment(c: T.CommitmentRow)
      modifies this`commitments
      ensures State() == old(State()).(commitments := T.AddCommitment(old(commitments), c))
      ensures T.Unique(T.CommitmentKey, old(commitments)) ==>
                var point := T.CommitmentKey(c);
                var flag := if T.Known(old(commitments), point) then T.KnownResolved(old(commitments), point)
                            else c.resolved;
                && T.Unique(T.CommitmentKey, commitments)
                && T.Upserted(T.CommitmentKey, old(commitments), c.(resolved := flag), commitments)
    {
      if T.Unique(T.CommitmentKey, commitments) {
        T.AddCommitmentInPlace(commitments, c);
      }
      commitments := T.AddCommitment(commitments, c);
    }

    method MarkCommitmentResolved(point: T.Outpoint)
      modifies this`commitments
      ensures State() == old(State()).(commitments := T.MarkResolved(old(commitments), point))
    {
      commitments := T.MarkResolved(commitments, point);
    }

    method RewindBitcoinScan(ancestor: int)
      modifies this`anchors, this`commitments, this`blocks
      ensures State() == T.Rewind(old(State()), ancestor)
    {
      var points := T.ForgottenPoints(commitments, ancestor);
      if points != {} {
        anchors := T.Update(T.WithdrawAnchor(points), anchors);
      } else {
        NothingWithdrawn(anchors);
      }
      commitments := T.Where(T.AtMost(ancestor), commitments);
      blocks := map h | h in blocks && h <= ancestor :: blocks[h];
    }

    method SetPeerState(key: string, state: PeerState)
      modifies this`peers
      ensures peers == old(peers)[key := state]
    {
      peers := peers[key := state];
    }
  }

  lemma NothingWithdrawn(anchors: seq<T.Anchor>)
    ensures T.Update(T.WithdrawAnchor({}), anchors) == anchors
  {
  }
}
