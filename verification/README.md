# HAP node: a verified model

HAP is a node that keeps signed records, batches them under Merkle roots, commits each batch
to Bitcoin in an OP_RETURN output, scans the chain for such commitments, and replicates its
tables with other nodes. This project models the node's deciding code in Dafny and proves
what it promises.

## What is modelled

- **The commitment index** (`Tables`, `AnchorLaws`, `ChainIndex`, `ScanLaws`, `Runs`,
  `Upkeep`, `NodeStorage`, `Discovery`, `Resolving`). The database is a class with one field per table;
  scanning, resolving and importing are methods on it. The chain is an input that may change
  arbitrarily between calls, and a call may lose its connection after any number of blocks.
  A run is any sequence of scans, imports, registrations, references and broadcasts.
- **Merkle trees** with the last node doubled at odd levels (`Merkle`, `Binding`), over an
  arbitrary hash.
- **Canonical JSON** (`Json`, `JsonLaws`): the printer, a parser of the RFC 8259 grammar, and
  a meaning for values in which the order of keys plays no part.
- **Batches and packages** (`Batches`, `Packages`, `PackageSize`, `Packing`): identifiers, the
  validators check by check, and the arithmetic of printed length.
- **The service layer** (`Service`): submission, import with its dependency loop, greedy
  batching, registration, references, proofs.
- **Snapshots** (`Recovery`) and **replication** (`Replication`, `Sync`, `History`): paging,
  cursors, one call of `sync_peer`, and whole histories of calls to many peers between scans,
  imports and registrations.
- **The rate limiter** (`RateLimiter`), **the publication profile** (`Responsible`), **relay
  proof of work** (`RelayPow`), and **the Bech32/Bech32m address check** (`BitGroups`,
  `Bech32`, `Address`; BIP 173 and BIP 350).

`Bytes`, `Hex`, `Utf8`, `Order` and `Sums` are the vocabulary the other modules share.

Exceptions are `None`, `false` or an outcome value. SHA-256 is a parameter: every result holds
for any function from byte strings to 32 bytes, and where a result needs that there is no
collision it names the finite set of strings that were hashed. The clock, the chain, the
peers' answers and the field-by-field checks of a record are parameters too.

## How the main results fit together

1. `Discovery.ScanBitcoin` is proved to do what the function `Runs.Scan` says on the tables;
   `Runs.EveryRunKeepsTheIndex` proves, over every run, that the block and commitment tables
   are exactly what a fresh scan of a prefix of the last scanned chain would have stored, and
   that an anchor is confirmed exactly when a resolved commitment row stands for it.
2. The operations that import are proved to be sequences of such steps (`Steps.Leads`), so
   `Steps.LeadsKeeps` carries the invariant through them.
3. `Runs.AnchoredIsCommitted` reads the invariant off: a record reported anchored is in a
   stored batch whose very payload is in a scanned block of the view, unless two manifests collide.
4. What every call asks of the tables, that they are well-formed (`Service.Wellformed`), every
   other call keeps: each method of the service and every scan (`Upkeep.ScanKeepsWellformed`).
5. What `Sync.SyncPeer` asks of a node, sound cursors, holds in every state of every history
   (`History.EveryHistoryRemembers`), so its promises about one call add up: to
   `History.EveryRefusalIsCounted` and `History.CleanHistoryReplicates`.

What is assumed of chains is the predicate `ChainIndex.Sound` (block hashes and outpoints are
distinct, at most 10,000 commitments name one batch) and `ChainIndex.Linked` (a block hash
determines everything below it). `ChainIndex.ScanRowRaises` shows exactly what happens without
the bound of 10,000.

## Where the code needs a condition

- A stored batch registers for a scanned row exactly when the two payload texts are equal
  (`Discovery.RetrievedRegisters`). The validators read `payload_hex` as bytes and accept upper
  case and white space in it (`Batches.SpelledPayload`), the scanner always produces tight lower
  case, so a valid batch spelled otherwise is never confirmed by a scan
  (`Discovery.SpelledNeverRegisters`). The model follows the code.
- Merkle soundness holds for paths of the depth of the tree. The verifier does not check the
  length: `Merkle.ShortPathSoundness` and `Merkle.LongPathSoundness` say exactly what other
  paths it accepts, and `Merkle.InnerNodeAccepted` that it accepts every inner node.
- Repeating the odd last leaf keeps the root (`Merkle.RepeatedTailKeepsRoot`). The batch
  validator refuses identifiers that are repeated as texts, but one digest has a text for
  every mixture of upper and lower case, so a valid batch need not be the only one with its
  root (`Binding.SpellingsShareARoot`). What two batches with one root have in common is always
  their padded digests (`Binding.BatchRootsAgree`); where no two identifiers of either stand for
  one digest it is the digests themselves (`Binding.BatchBinding`), and so it is for every valid
  package (`Binding.PackageBinding`).
- The scanner stores commitments of every payload type, the batch validator accepts one. A row
  of another type never registers, and answering for it makes `resolve_commitments` raise
  (`Resolving.OtherTypeNeverRegisters`, `Resolving.OtherTypeStops`).
- A node between calls exports a snapshot if and only if the targets of its records are stored,
  its anchors are well-formed, and their numbers and the time are within the integers that
  canonical JSON prints (`Recovery.ExportSnapshot`, `Recovery.SnapshotHashes`). Replication and
  packages take records without asking for their targets, so a node loses the ability to export
  until the target arrives (`Recovery.PackageBlocksExport`, `Recovery.MissingTargetBlocksExport`).
  The validator of references bounds no number from above, so a valid reference with an output
  number of 2^53 or more is stored like any other, and from then on the node exports nothing
  (`Recovery.LargeOutputBlocksExport`).
- Every refused item behind a cursor was counted as an error only as long as no output comes to
  another batch. A reference from a peer never does that, but a registration does, in a scan or
  in `resolve_commitments`, when a row of one batch names an output that the node holds under
  another; so does a broadcast (`History.StepRemains`, `History.ScanRemains`). Then the peer's
  reference, stored so far and behind the cursor, is refused from then on, and no call counts
  it: `History.TakenOutputIsNotCounted` gives the input, and `History.TurnsWithItsOutput` shows
  that this is the only way. That every item behind a cursor is stored or refused holds without
  this condition (`History.EveryHistoryRemembers`).
- A package or snapshot imports exactly when no set of its records waits for itself
  (`Service.HistoryAnchorService.ImportRecords`); a ranking of the targets rules that out
  (`Service.AcyclicImports`).

## Model

| member | source | states |
|---|---|---|
| `JsonLaws.CanonicalRoundTrip` | hap/codec.py:16-61 | every accepted value has canonical bytes, and a JSON parser reads them back as a value of the same meaning |
| `JsonLaws.CanonicalIdentifies` | hap/codec.py:48-61 | two accepted values have the same canonical bytes if and only if they mean the same; insertion order is irrelevant and nothing else is |
| `JsonLaws.NormalDetermined` | hap/codec.py:55-61 | the sorted form depends on the meaning alone |
| `JsonLaws.EmitReads` | hap/codec.py:55-61 | the parser reads back any printed value in front of any text that cannot extend it |
| `Utf8.DecodeEncode` | hap/codec.py:55-61 | decoding UTF-8 undoes encoding |
| `Hex.FromToHex` | hap/merkle.py:17-21 | reading hexadecimal text undoes writing it |
| `Merkle.MerkleRoot` | hap/merkle.py:24-32 | the loop computes the root of the padded tree, the zero digest for no leaves, and fails on a malformed leaf |
| `Merkle.MerkleProof` | hap/merkle.py:35-51 | the loop yields the siblings of the leaf at every level, and fails exactly on a bad index or a malformed leaf |
| `Merkle.VerifyMerkleProof` | hap/merkle.py:54-71 | accepts exactly the well-formed paths that climb from the record to the root text |
| `Merkle.DepthBounds` | hap/merkle.py:27-31 | the number of levels is the ceiling of the binary logarithm |
| `Merkle.ProofClimbs` | hap/merkle.py:35-51 | the honest path has the depth of the tree and climbs to its root, through all odd levels |
| `Merkle.MerkleCompleteness` | hap/merkle.py:35-71 | for every list and index the proof has the depth of the tree and is accepted |
| `Merkle.MerkleSoundness` | hap/merkle.py:54-69 | a path of full depth reaches the root if and only if the value is the padded leaf at the position its sides spell and the siblings are that position's own, unless two hashed strings collide |
| `Merkle.PaddedProofOfLeaf` | hap/merkle.py:35-51 | for a real position the only accepted path is the honest one |
| `Merkle.AcceptedRecordIsCommitted` | hap/merkle.py:54-69 | an accepted proof of full depth shows that the record is one of the committed identifiers |
| `Merkle.ShortPathSoundness` | hap/merkle.py:54-69 | a path `j` steps short of the depth reaches the root if and only if the value is the padded node `j` levels up at the position its sides spell and the siblings are that node's own, unless two hashed strings collide |
| `Merkle.LongPathSoundness` | hap/merkle.py:54-69 | a path longer than the depth reaches the root if and only if its first steps lead to a padded leaf and the rest is that leaf's own path, unless two hashed strings collide |
| `Merkle.InnerNodeAccepted` | hap/merkle.py:54-71 | such shorter paths exist: the verifier accepts every inner node with its own path, though no identifier is committed there |
| `Merkle.RootsAgree` | hap/merkle.py:24-32 | trees of equal depth have one root if and only if their padded leaves agree, unless two hashed strings collide |
| `Merkle.MerkleBinding` | hap/merkle.py:24-32 | trees of equal depth over lists of digests without repetition have one root if and only if the lists are equal, unless two hashed strings collide |
| `Merkle.RepeatedTailKeepsRoot` | hap/merkle.py:29-30 | repeating the odd last leaf never changes root or depth |
| `Merkle.InnerLevelKeepsRoot` | hap/merkle.py:28-31 | an inner level, taken as leaves, has the root of its tree and one level less |
| `Bitcoin.PayloadRoundTrip` | hap/bitcoin.py:35-60 | decoding a payload gives back its digest and type byte |
| `Bitcoin.CommitmentScripts` | hap/bitcoin.py:49-82 | an output is taken for a commitment if and only if its script is the one built for some digest and type byte, and then it names that digest |
| `Bitcoin.PublishedIsScanned` | hap/bitcoin.py:35-82 | what the node publishes for a digest, its scanner finds again |
| `Batches.CreateBatchManifest` | hap/batches.py:61-87 | succeeds exactly on a non-empty list of at most 50,000 distinct digests with a known network and a safe time, and returns a valid batch of the sorted list |
| `Batches.ValidIsBatchable` | hap/batches.py:90-142 | only such lists have a valid batch |
| `Batches.SortedIds` | hap/batches.py:114-119 | sorting keeps the elements, keeps duplicates visible and is idempotent on distinct identifiers |
| `Batches.SpelledPayload` | hap/batches.py:135-142 | a valid batch stays valid when its payload text gets white space in front, so the text is not determined by the batch identifier |
| `Binding.BatchRootsAgree` | hap/batches.py:114-123 | two valid batches with equally deep trees have one root if and only if their padded digests agree, unless two hashed strings collide |
| `Binding.BatchBinding` | hap/batches.py:114-123 | where no two identifiers of either batch stand for one digest, that is if and only if their digests are the same in the same order |
| `Binding.SpellingsShareARoot` | hap/batches.py:114-123 | without that condition it fails for every hash: three identifiers, and the same three with the last once more in the other case, make two valid batches with equally deep trees and one root |
| `Packages.BatchIdDetermines` | hap/batches.py:45-46 | a batch identifier determines the whole manifest, the spelling of the payload apart, unless two hashed strings collide |
| `Packages.RecordIdDetermines` | hap/packages.py:64-70 | a record identifier determines the meaning of the signed record |
| `Packages.CommitmentDeterminesPackage` | hap/packages.py:45-76 | one Bitcoin payload admits one package: the same batch and the same records in the same order |
| `Binding.PackageBinding` | hap/packages.py:45-76 | two valid packages with equally deep trees have one root if and only if they list the same records, for the identifiers of records are always printed in lower case |
| `PackageSize.PackageWeight` | hap/service.py:192-218 | the printed length of a valid package is at most 4096 plus each record's length plus 96 |
| `Packing.OrderedIsSorted` | hap/packages.py:32-33 | the records of a package are the given ones sorted by identifier |
| `Packing.PackageFits` | hap/packages.py:29-42 | packaging distinct valid records under their batch never raises and stays within the estimate |
| `Tables.UpsertRows` | hap/storage.py:397-426 | an upsert replaces the row with that key and no other |
| `NodeStorage.Storage.AddRecord` | hap/storage.py:259-275 | appends the record unless its identifier is known, and says which |
| `NodeStorage.Storage.AddBatch` | hap/storage.py:334-357 | stores a new batch, links its records in either case, touches nothing else |
| `NodeStorage.Storage.AddAnchor` | hap/storage.py:397-426 | says whether the output was new; the anchor stands in place of the one with its output, or at the end, and every other anchor stays where it was |
| `NodeStorage.Storage.AddCommitment` | hap/storage.py:524-559 | the row stands in place of the one with its output, keeping that one's resolved flag, or at the end with its own; every other row stays where it was |
| `NodeStorage.Storage.AddScannedBlock` | hap/storage.py:502-507 | the height has the row, another height keeps its row unless that has the same hash, and then it has none |
| `NodeStorage.Storage.RewindBitcoinScan` | hap/storage.py:612-629 | forgets blocks and commitments above the height and withdraws the anchors of the forgotten outputs |
| `AnchorLaws.RegisterSucceeds` | hap/service.py:487-522 | registration succeeds if and only if the batch is stored, the row is among the first 10,000 of its batch and the payload texts agree; it then confirms that row |
| `AnchorLaws.ConfirmedIffCommitted` | hap/service.py:487-522 | under the invariant an anchor is confirmed if and only if a resolved row with its output, batch, block hash and height exists |
| `AnchorLaws.ConfirmKeeps` | hap/service.py:509-521 | confirming a row keeps anchors and commitments in step |
| `AnchorLaws.ImportAnchorKeeps` | hap/service.py:626-663 | a reference from outside never confirms an anchor or unsettles a confirmed one |
| `AnchorLaws.RewindKeeps` | hap/storage.py:612-629 | a rewind withdraws every anchor whose commitment it forgets and no other, and keeps the invariant |
| `AnchorLaws.GrowthKeeps` | hap/service.py:240-265 | arriving records and batches leave the invariant alone |
| `ChainIndex.ChainRowsExactly` | hap/discovery.py:99-129 | the rows of a range of blocks are the committing outputs in it, all of them |
| `ChainIndex.RowIsCommitment` | hap/discovery.py:107-129 | each row carries the output, digest, payload, block and height it was found with |
| `ChainIndex.ScanRowKeeps` | hap/discovery.py:116-135 | one new output never makes the scan raise, keeps the invariant and is resolved exactly when its batch is at hand |
| `ChainIndex.ScanRowRaises` | hap/service.py:495-503 | a new output makes the scan raise if and only if its batch is stored with that payload and 10,000 earlier rows of the batch hide it |
| `ScanLaws.ScanBlockKeeps` | hap/discovery.py:99-136 | scanning the next block extends the exact index by that block |
| `ScanLaws.RewindIndexes` | hap/storage.py:612-629 | a rewind leaves exactly the index of the shorter chain |
| `Runs.Ancestor` | hap/discovery.py:38-55 | the highest stored height up to the candidate whose hash is answered and unchanged, or -1 |
| `Runs.ScanKeepsIndex` | hap/discovery.py:58-146 | one scan, whatever the chain has become, never raises and leaves an exact index of a prefix of the active chain |
| `Runs.ScanRowsAdded` | hap/discovery.py:71-136 | rows up to the rewind target stay as they were, the scanned blocks' rows are appended, resolved exactly when their batch was stored |
| `Runs.EveryRunKeepsTheIndex` | hap/discovery.py:58-146 | in every run over a changing chain the block and commitment tables are exactly the index of a prefix of the last scanned chain, and confirmed anchors are exactly the resolved commitments |
| `Runs.NoScanRaises` | hap/discovery.py:99-136 | in every run no scan is stopped by an error of the index |
| `Runs.BlocksAreActive` | hap/storage.py:502-522 | the block table is the active hashes on a contiguous range from the start height |
| `Runs.AnchoredIsCommitted` | hap/storage.py:465-475 | a record reported anchored is listed by a stored batch, or another manifest collides with that batch, and the payload of that very batch is in a scanned block of the active view |
| `Upkeep.ScanKeepsWellformed` | hap/discovery.py:58-146 | a scan keeps the tables well-formed, over every chain and for every way of being cut short, so any call of the node may follow it |
| `Upkeep.ScanComesThrough` | hap/discovery.py:58-146 | a scan touches anchors, commitments and blocks only, and afterwards an output belongs to the batch of the last row read that names it for a stored batch, or else to the batch it belonged to |
| `Steps.LeadsKeeps` | hap/service.py:240-265 | whatever an importing call does, the index stays the index of the same view |
| `Discovery.FindCommonAncestor` | hap/discovery.py:38-55 | the downward search returns the common ancestor |
| `Discovery.ScanOutput` | hap/discovery.py:107-135 | the innermost loop body stores the row of a committing output, registers it if its batch is at hand, and counts it |
| `Discovery.ScanOneBlock` | hap/discovery.py:99-136 | the two inner loops scan exactly the rows of the block and then store the block |
| `Discovery.PrepareScan` | hap/discovery.py:66-91 | chooses the next height and rewinds exactly when the stored tip is gone or unanswered |
| `Discovery.ScanBitcoin` | hap/discovery.py:58-146 | the whole scan: the tables it leaves, when it raises or is cut short, and every field of its result; however it ends, well-formed tables stay so |
| `Discovery.RetrievedRegisters` | hap/service.py:487-508 | with an exact index a retrieved batch registers if and only if its payload text is the scanned one |
| `Discovery.SpelledNeverRegisters` | hap/service.py:505-508 | a stored batch whose payload text has white space in front never registers for a scanned row |
| `Discovery.ResolveCommitments` | hap/discovery.py:172-213 | it raises if and only if some answered row, in order, brings a package whose records wait for each other or cannot be registered; otherwise the tables are what the rows make of them one by one, but for the order of records, exactly the answered rows are resolved, and the counts are right; in every case it is a sequence of steps |
| `Resolving.ResolvesExactly` | hap/discovery.py:172-213 | where no batch is committed to more than 10,000 times, all rows resolve if and only if every answered row, in order, brings no records that wait for each other and has the payload text of the batch first stored, or first answered, under its identifier |
| `Discovery.ResolvesWithIndex` | hap/discovery.py:172-213 | with an exact index that is when `Discovery.ResolveCommitments` succeeds |
| `Resolving.OtherTypeNeverRegisters` | hap/discovery.py:110-129 | a scanned row whose payload has another type byte than that of a batch never registers, for every stored batch is valid |
| `Resolving.OtherTypeStops` | hap/discovery.py:172-213 | so one such row that a peer answers for makes the whole call raise |
| `Service.HistoryAnchorService.SubmitRecord` | hap/service.py:45-68 | stores a valid new record that the local policy lets pass and whose target, where that is asked for, is stored; reports a known one, refuses the rest; keeps the tables well-formed |
| `Service.HistoryAnchorService.ImportBatch` | hap/service.py:606-624 | refuses an invalid batch, asks for missing records, otherwise stores and links it; keeps the tables well-formed |
| `Service.HistoryAnchorService.ImportRecords` | hap/service.py:245-258 | the dependency loop terminates; it succeeds if and only if no records wait for each other, and then everything is stored, each new record after its target |
| `Service.AcyclicImports` | hap/service.py:245-258 | if the targets are ranked, no records wait for each other |
| `Service.NothingStuck` | hap/service.py:245-258 | an order with targets first rules out records that waited for each other |
| `Service.HistoryAnchorService.ImportPackage` | hap/service.py:240-265 | a package is refused if and only if it is invalid or its records wait for each other; otherwise its records and its batch are stored and the batch never lacks a record |
| `Service.HistoryAnchorService.ChooseRecords` | hap/service.py:195-206 | the greedy loop takes the longest prefix whose estimate fits and fails exactly when the first record does not |
| `Service.HistoryAnchorService.PackRecords` | hap/service.py:208-218 | the packaging loop returns in its first turn with a package within the limit |
| `Service.HistoryAnchorService.CreateBatch` | hap/service.py:185-218 | makes a batch if and only if the greedy prefix of the unbatched records is not empty and not longer than 50,000 and the network and the time are good; the batch takes exactly that prefix, and afterwards the unbatched records are the rest in order |
| `Service.UnbatchedAfter` | hap/storage.py:291-306 | batching a prefix of the unbatched records leaves exactly the rest in order |
| `Service.HistoryAnchorService.RegisterScannedAnchor` | hap/service.py:487-522 | the lookups and writes amount to one registration, a refusal changes nothing, and well-formed tables stay so |
| `Service.HistoryAnchorService.ImportAnchorReference` | hap/service.py:626-663 | what is stored for a reference, and each way of refusing one |
| `Service.HistoryAnchorService.AnchorBatch` | hap/service.py:430-463 | an anchor is stored as broadcast if and only if the batch is known, mainnet is allowed and the networks agree |
| `Service.HistoryAnchorService.ProofsForRecord` | hap/service.py:267-285 | one proof for every stored batch that lists the record, in order, each with the first position of the record, a path of full depth that the verifier accepts, and the anchors of that batch in order |
| `Recovery.ExportSnapshot` | hap/service.py:665-676 | exports the tables as they are; between calls of the node it succeeds if and only if the target of every stored record is stored, every anchor is well-formed, and the time and the output number, time and height of every anchor are within the integers that canonical JSON prints |
| `Recovery.WellformedCloses` | hap/archive.py:63-95 | what the node has accepted satisfies every other closure check of a snapshot |
| `Recovery.SnapshotHashes` | hap/archive.py:34-35 | the snapshot of a well-formed node has an identifier if and only if the time and the numbers of its anchors are within those integers; records and batches, being validated, always are |
| `Recovery.PackageBlocksExport` | hap/service.py:240-265 | by what `ImportPackage` promises, a package one of whose new records has its target neither in the package nor in the node leaves a node that cannot export |
| `Recovery.MissingTargetBlocksExport` | hap/sync.py:141-142 | a node that can export takes in a record, as replication does; it can still export if and only if the record has no target or a stored one |
| `Recovery.ImportKeepsReferences` | hap/service.py:626-663 | an accepted reference keeps all stored anchors well-formed; anchors that could be printed still can if and only if the numbers stored for it can |
| `Recovery.LargeOutputBlocksExport` | hap/service.py:626-663 | a valid reference to a stored batch at a new output whose number exceeds 2^53 - 1 is accepted, all references stay well-formed, and no state that keeps the node's outputs can ever export again |
| `Recovery.ImportSnapshot` | hap/service.py:678-710 | it succeeds if and only if the snapshot is valid, no records wait for each other and the references import one after another, and the tables are then the result; records are only added, all of them from the snapshot and each after its target; into an empty node it succeeds when the networks agree, and restores everything with all anchors unverified; in every case it is a sequence of steps of a run |
| `Recovery.RestoredIsUnconfirmed` | hap/service.py:701-705 | a restored node reports no record anchored |
| `Recovery.RestoredIsConsistent` | hap/service.py:678-710 | a restored node is as ready for scanning as a new one |
| `Recovery.RestoredFromNode` | hap/archive.py:63-95 | export and import keep the set of records, the batches in order and the map from outputs to batches |
| `Replication.PageIsNext` | hap/storage.py:308-317 | a page is what follows the cursor up to the limit; it passes over nothing, and a page that is not full is the last |
| `Replication.CursorsStay` | hap/sync.py:185-187 | stored cursors are handed over: for a later call, to a peer whose tables continue the earlier ones, and for tables from which no record, batch or anchored output has gone, everything at or below the cursors is still stored or refused; and where no output has come to another batch, just as many entries are refused |
| `Replication.SettledOnward` | hap/service.py:626-663 | what is stored or refused stays stored or refused, even where an output comes to another batch |
| `Replication.SettledFromStart` | hap/sync.py:174-183 | a dependency that is missing later holds up nothing that was there from the start: all of it is stored or refused |
| `Replication.AllReplicated` | hap/sync.py:138-192 | after three finished tables every record the peer had at the start is stored or refused; if its tables were closed under dependencies and no record or batch is refused, all records and batches are stored and every anchor is stored or refused; the refused entries of all three are at most as many as were refused behind the cursors before and counted now |
| `Sync.ImportPage` | hap/sync.py:168-178 | the items of a page are handled up to the first that lacks what it refers to; each is stored or refused, the errors are exactly the refused ones and the accepted ones are the growth of the table |
| `Sync.SyncPage` | hap/sync.py:155-189 | one turn of the page loop: it fails if and only if the request is refused or not answered, keeps the cursors sound with every refused entry behind them counted, and moves the cursor only past a page all of which is handled |
| `Sync.SyncKind` | hap/sync.py:153-193 | the page loop for one table: it ends with the table or in front of an item that lacks what it refers to, and the errors are exactly the refused entries it looked at; it raises only if the page size is refused, the last request was not answered or so many entries lay behind the cursor that every page was full |
| `Sync.StartState` | hap/sync.py:118-136 | a state of another peer or epoch is dropped and replaced |
| `Sync.SyncPeer` | hap/sync.py:95-194 | asks that what the peer serves at or below the cursors stored for it is stored or refused, which holds in every history (`History.EveryHistoryRemembers`), and leaves it so, however the call ends; no more of it is refused afterwards than was before and than the call has refused; nothing stored goes and no anchor changes its batch; a call that returns has counts equal to the growth of the tables, exactly as many errors as refused entries among those it looked at, and all the peer had at its start replicated as `Replication.AllReplicated` says; it raises only without an epoch or for one of the reasons of a page loop |
| `History.StepRemains` | hap/service.py:487-522 | a step other than a scan leaves every output with its batch if and only if it does not register or broadcast an anchor of another batch over one; growth and references never do |
| `History.ScanRemains` | hap/discovery.py:99-136 | a scan leaves every output with its batch if and only if no row it reads names one for another stored batch |
| `History.TurnsWithItsOutput` | hap/service.py:626-663 | between well-formed states that keep records, batches and outputs, the refused items are the same if and only if no output with a real transaction id has come to another batch |
| `History.TakenOutputIsNotCounted` | hap/service.py:509-520 | registering a row for an output held under another batch turns a stored reference behind a cursor into a refused one that no call has counted |
| `History.EveryHistoryRemembers` | hap/sync.py:95-194 | in every history of calls to any number of growing peers, however they end, between scans and any other steps, whatever a peer serves at or below the cursors stored for it is stored or refused |
| `History.EveryRefusalIsCounted` | hap/sync.py:168-187 | in a history in which no output comes to another batch, the refused entries at or below the cursors of a key are at most the errors of all calls with that key |
| `History.CleanHistoryReplicates` | hap/sync.py:95-194 | in such a history a call that returns, to a peer that serves what its tables refer to and of which no item was ever counted as an error, leaves every record, batch and anchor the peer had at its start stored, then and in every later state |
| `RateLimiter.FixedWindowRateLimiter.Allow` | hap/middleware.py:123-142 | the limiter decides as a counter over the full history would: it rejects if and only if the key has used its allowance in the last window, or has no live event while enough other keys have |
| `RateLimiter.FixedWindowRateLimiter.Prune` | hap/middleware.py:113-121 | drops the expired front of every queue and the keys left without one |
| `RateLimiter.FixedWindowRateLimiter.Admit` | hap/middleware.py:130-136 | a key gets a queue unless the dictionary is full of live keys, and then the full-history counter rejects too |
| `RateLimiter.LimitsHold` | hap/middleware.py:102-142 | no half-open window of that length, ending anywhere, holds more allowed requests of a key than permitted, and the dictionary never exceeds its limit |
| `RateLimiter.WindowBound` | hap/middleware.py:137-142 | spaced events never crowd a window |
| `Responsible.DeclaredNone` | hap/responsible.py:29-38 | a record is taken to concern nobody if and only if it says so and says nothing else |
| `Responsible.Decisions` | hap/responsible.py:174-199 | the loop finds whether an eligible decision restricts, and whether one enables after cooling, and evaluates every view decision, in order |
| `Responsible.FirstNotice` | hap/responsible.py:143-152 | the lowest height at which a notice is anchored |
| `Responsible.Assess` | hap/responsible.py:90-285 | the state, exactly the reasons and review flags that hold, in their fixed order, the challenge window, the cooling, the summaries of the linked records of each kind in order and the evaluation of every decision, against a declarative description of all of them |
| `Responsible.RestrictionsExplain` | hap/responsible.py:158-164 | a restriction counts if and only if a reported summary of a restriction notice is anchored and its author recognised |
| `Responsible.DecisionsExplain` | hap/responsible.py:174-199 | a decision to enable or to restrict counts if and only if a reported evaluation says it is eligible and names that action |
| `Responsible.OrderIsIrrelevant` | hap/responsible.py:118-222 | no permutation or repetition of linked records changes state or reasons |
| `Responsible.RestrictionWins` | hap/responsible.py:158-210 | a recognised restriction keeps a record unlisted whatever else is linked |
| `Responsible.StaysListed` | hap/responsible.py:149-222 | what is listed at a known chain height stays listed at every greater one |
| `Responsible.OnlyTheWindow` | hap/responsible.py:143-222 | records by unrecognised authors act through the challenge window only |
| `Responsible.LaterNoticesDoNotExtend` | hap/responsible.py:143-156 | notices anchored at or above the first never move the end of the window |
| `Responsible.AfterTheWindow` | hap/responsible.py:149-222 | from the end of the window on, with the first notice still linked, the state depends on the record and on anchored records by recognised authors only |
| `BitGroups.ConvertBits` | scripts/finalize_public_identity.py:68-89 | the groups spell the same number, padded or cut; without padding it refuses exactly a whole spare group or spare bits that are not zero |
| `BitGroups.ValueTaken` | scripts/finalize_public_identity.py:79-80 | the accumulator mask never drops a live bit |
| `BitGroups.PadThenUnpad` | scripts/finalize_public_identity.py:84-88 | padding to narrower groups and converting back gives the original |
| `BitGroups.UnpadThenPad` | scripts/finalize_public_identity.py:84-88 | whatever converts without padding is the padded form of its result |
| `Bech32.Polymod` | scripts/finalize_public_identity.py:48-57 | the loops compute the checksum as a fold of one step |
| `Bech32.ChecksumIsLinear` | scripts/finalize_public_identity.py:52-56 | the step is linear over exclusive or |
| `Bech32.ZeroesKeep` | scripts/finalize_public_identity.py:52-56 | a difference between 30-bit states never vanishes over equal symbols |
| `Bech32.BurstDetected` | scripts/finalize_public_identity.py:48-57 | sequences that differ only within six consecutive symbols have different checksums |
| `Address.LastIndex` | scripts/finalize_public_identity.py:102-102 | finds the last separator |
| `Address.ValidateBitcoinAddress` | scripts/finalize_public_identity.py:92-140 | the sequence of checks accepts exactly the texts that satisfy a declarative description of a mainnet address |
| `Address.ErrorDetected` | scripts/finalize_public_identity.py:116-122 | an error within six consecutive characters behind the witness version is always found |
| `Address.ErrorChangesVersion` | scripts/finalize_public_identity.py:133-139 | with the version in reach an error can pass only by turning version zero into another or back |
| `RelayPow.LeadingZeroBits` | hap/policy.py:110-118 | the loop counts the zero bits in front of the digest read as a big-endian number |
| `RelayPow.ZeroBitsMean` | hap/policy.py:110-118 | there are at least k of them if and only if the number is below 2 to the power of the remaining bits |
| `RelayPow.VerifyRelayPow` | hap/policy.py:136-144 | accepts everything for a difficulty of zero or less, otherwise exactly the nonces that work |
| `RelayPow.MineRelayPow` | hap/policy.py:147-164 | terminates; returns the least working nonce at or above the start within the attempts, and raises only when none of them works |

## Left out

- `verify_bitcoin_anchor` as a step of a run or a history: it confirms anchors without a commitment row, so a rewind does not cover what it writes.
- A chain change during one scan call, a process killed inside a block's writes, threads, and SQLite durability and migrations; a scan sees one chain and one start height, and loses its connection at a block boundary.
- One network and one start height per run of the index.
- Discovery.ScanBitcoin: of the tables that a raising scan leaves only that they stay well-formed is stated; runs and histories have no such step, and `Runs.NoScanRaises` shows that none occurs in a run.
- The download loop over peers in `resolve_commitments`: it is one function from rows to validated packages.
- Liveness of `resolve_commitments`, which looks at a limited prefix of unresolved rows and depends on peers.
- The columns `status` and `discovered_at` of a commitment and the positions in `record_batches` as results: they are constant or a clock reading, and nothing modelled reads them.
- The responsible-profile validator of record submission, which is one of the local policies that `SubmitRecord` takes as a parameter; the field-by-field and signature checks of records, which are the abstract predicate `wellFormed`.
- Second turns of the loop that drops records in `create_batch`: `Service.HistoryAnchorService.PackRecords` proves that there are none.
- JSON values with floats or lone surrogates cannot be written down in the model; the parser knows no white space, fractions or escaped surrogate pairs.
- The limit of 10,000,000 rows in `export_snapshot`, and the 64 bits of a database integer, beyond which a statement fails.
- Sync.SyncPeer: assumes a peer whose tables only grow at the end; anchors that the peer updates in place and a peer whose cursor fails to advance are not modelled.
- `sync_all_peers`, HTTP, response size limits and peer key hashing.
- Responsible.Assess: the fixed texts of the result are left out, and a summary holds the record it is made of, not a copy of each of its fields.
- Rate limiter times are reals, not floats; the lock is left out.
- Address.ValidateBitcoinAddress: text is ASCII; lower-casing of other characters is not modelled.
- Bech32.BurstDetected: the detection of scattered errors that BIP 173 promises beyond bursts is not proved.
- RelayPow.VerifyRelayPow: nonces with decimal digits outside ASCII, which cannot be encoded, are not modelled.
- Reports, provenance graphs, view manifests, survival archives, the evidence store, wallets, fees, configuration, command line and user interface: they read the tables or talk to the outside, and no result here depends on them.
