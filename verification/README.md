# p2pnas in Dafny

p2pnas is an encrypted, erasure-coded store: a file is cut into chunks, each chunk is
sealed and spread as fourteen shards over this node and its peers, and any ten shards
bring it back. This project models its logic and proves what it keeps:

- **Files** (`Manifest`, `Lifecycle`, `SplitCalls`, `History`, `Service`, `Storage`,
  `Retention`, `PackFormat`). Whatever the
  order of uploads, trash, restores, purges, sweeps, packing and compaction, and however
  stale the reads behind a packing, every surviving file id reads back the bytes first
  stored under it; an overwritten file keeps its place in its history, and a sweep takes the
  oldest versions.
- **Shards** (`Erasure`, `Repair`, `RepairQueue`, `Backup`). Zero-copy striping is plain
  striping; ten genuine shards give back the buffer and all fourteen originals; a repair
  restores the margin without crowding a location; a manifest backup is rebuilt from
  envelopes in any order.
- **Spread** (`ZoneGreedy`, `Placement`, `Rebalance`). The greedy plan is optimal under
  nested caps exactly when the zones can carry the total; the rebalance reaches that plan
  with the fewest moves.
- **Bytes against rows** (`CrashSafety`, `Accounting`). At every crash point of every
  interleaving each row's bytes are where it says, exactly as long as no relocation deletes
  the copy another records; and the counters equal what they summarise exactly as long as
  purges delete what they looked up and no settled amount takes the node's counter below
  zero.
- **Peers** (`NodeIds`, `AddrPolicy`, `Routing`, `Dht`, `DhtLimits`). In every reachable
  state of the DHT a verified address is one that answered us, and a query is answered with
  the entries nearest to its target.
- **Secrets** (`Sealing`, `Pipeline`). Encodings are injective, a chunk opens only in its
  own place, and no key and nonce seal two plaintexts.
- **Jobs** (`Jobs`). Interleaved workers, claims, requeues and retry chains.

Where the code keeps a table, a buffer or a counter and changes it in place, the model is
a class or a loop proved against a specification; interleavings are state machines whose
steps are the code's atomic statements. Reed-Solomon, HKDF, AES-GCM, BLAKE3 and zstd
appear only through their laws.

`dafny verify dfyconfig.toml` checks everything.

## What the proofs turned up

Each of these is a lemma with a concrete run or an exact condition.

- Restoring a trashed file to a path that has been reused makes the file that was current
  there a version of a history of its own with nothing left to restore, which the next sweep
  destroys whatever its age, although the comments promise that a restore never loses data
  (`History.RestoreOrphansIff`, `History.RestoreCostsOccupant`).
- Placement: the per-location cap follows from the zone cap, and the plan is optimal and
  zone-safe exactly when `total <= parity * zones`. A peer labelled `@self` shares the
  owner's zone. Distances are scaled by the farthest peer, so a peer an order of magnitude
  nearer can lose on reliability, which the comment on the weight rules out
  (`Placement.DistanceDecidesIff`, `Placement.TenTimesNearerIsDearer`).
- `trash` checks and stamps in two statements; a row superseded in between ends up with
  both stamps, and keeps them until it is restored (`SplitCalls.BothStampsIff`,
  `SplitCalls.TrashRacesUpload`). No bytes are lost by it.
- `pull` and `pull_plan` read a row and its chunks in separate statements; chunks packed
  away in between read as an empty file (`Lifecycle.LateChunkRead`,
  `SplitCalls.PackedAwayReadsEmpty`). Packing is immune because it checks the size.
- `purge_file` looks its row up and deletes it in two statements and credits what it looked
  up. Two purges of one file credit the account twice (`Accounting.DoublePurge`), and a
  packing in between makes the node's counter fall short
  (`Accounting.PackingOvertakesPurge`).
- The node's stored-bytes counter is clamped at zero, so it can stay too high for good when
  a purge overtakes its upload, although every purge deleted what it had looked up
  (`Accounting.PurgeOvertakesUpload`, `Accounting.NoOrderClampsIff`). Both counters are right
  throughout exactly when every deletion still finds what was looked up and no settled
  amount meets the clamp (`Accounting.BooksRightIff`).
- Chunk rows lost while the file row keeps its chunk count, at the end or in the middle,
  leave a shorter file that reads without error, and so does the loss of all of them,
  although the comments promise truncation is detected (`Pipeline.LossNoticedIff`).
- A backup envelope stores its payload length in 32 bits without a check and cannot
  describe an empty blob; both are refused on reading (`Backup.DecodeInvertsEncodeIff`).
- Two relocations of one shard can lose it when one is about to delete the copy the other
  is about to record, repairs included (`CrashSafety.RobustIff`).
- A relocation that records its shard after the file was purged leaves its new copy where
  nobody knows of it (`CrashSafety.StepStraysIff`, `CrashSafety.PurgeStrandsCopy`).
- The comment on bucket indices says 0 is closest; 0 is farthest
  (`NodeIds.LowerBucketIsFarther`).
- A DHT query is noted before it is sent, so a failed send still lets an unsolicited
  answer prove an address (`Dht.UnsentQueryProves`, `Dht.SentQueriesProve`).
- The permissive address policy judges IPv6 spellings of IPv4 addresses by their spelling,
  so it accepts `::ffff:255.255.255.255` and refuses `255.255.255.255`
  (`AddrPolicy.PermissiveSpellings`).

## Model

| member | source | states |
|---|---|---|
| `Lifecycle.EveryRunReadsBack` | server/crates/store/src/service.rs:1042-1167 | over every run of upload, trash (in one statement or two), restore, rename, purge, sweep, packing and compaction from stale reads, every surviving id reads back the bytes first stored under it, and no two live rows of a user share a path |
| `Lifecycle.StepKeeps` | server/crates/store/src/service.rs:52-162 | one command, committed or rolled back, keeps the manifest consistent and never re-mints an id |
| `Lifecycle.RunKeeps` | server/crates/store/src/manifest.rs:554-602 | the invariant holds after any sequence of commands and the bytes of an id never change |
| `Lifecycle.StaleReadsHarmless` | server/crates/store/src/service.rs:1063-1068 | an entry gathered at any earlier moment that passes the size check carries exactly the stored bytes |
| `Lifecycle.PackKeeps` | server/crates/store/src/service.rs:1042-1084 | a packing transaction keeps every row readable |
| `Lifecycle.RepackKeeps` | server/crates/store/src/service.rs:1100-1167 | a compaction keeps every row readable, because no row still pointing at the old container may be left out |
| `Lifecycle.NobodyLeftBehind` | server/crates/store/src/service.rs:1115-1124 | after a compaction nothing points at the container it destroys |
| `Lifecycle.RemovalKeeps` | server/crates/store/src/manifest.rs:700-720 | purging rows never takes bytes a surviving row reads |
| `Lifecycle.ReadsBack` | server/crates/store/src/service.rs:164-212 | in a consistent manifest every row, packed or not, reads back its id's bytes |
| `Lifecycle.UnchangedIsStored` | server/crates/store/src/service.rs:65-81 | an upload answered "unchanged" names a file that already reads back as the upload |
| `Lifecycle.LateChunkRead` | server/crates/store/src/service.rs:533-545 | a row and its chunks are read in two statements: late chunks give the file exactly if the row is still there and self-contained, or the file is empty, and otherwise nothing at all |
| `Lifecycle.StampKeeps` | server/crates/store/src/manifest.rs:554-576 | a trash stamp on a row in any state keeps the manifest consistent |
| `SplitCalls.BothStampsIff` | server/crates/store/src/service.rs:275-288 | at every moment of every run a row bears both stamps exactly if the second statement of a trash call hit it while superseded and it has not been restored since |
| `SplitCalls.NoLateStampNoDouble` | server/crates/store/src/manifest.rs:554-602 | with undivided trash calls no row ever bears both stamps |
| `SplitCalls.StampStep` | server/crates/store/src/manifest.rs:554-602 | only such a hit adds the second stamp and only a restore removes it |
| `SplitCalls.TrashRacesUpload` | server/crates/store/src/service.rs:275-288 | a run that ends with both stamps: an upload to the path between the two statements |
| `SplitCalls.PackedAwayReadsEmpty` | server/crates/store/src/service.rs:533-545 | a run in which a packing of two files between the two statements of a read makes a present, non-empty file read as nothing |
| `History.StepKeepsFile` | server/crates/store/src/manifest.rs:554-602 | no command changes whose a row is, its size, digest, time of creation or lineage |
| `History.OthersUntouched` | server/crates/store/src/manifest.rs:685-720 | no command of one user touches a row or the bytes of another user |
| `History.StepLoses` | server/crates/store/src/manifest.rs:685-720 | rows go only by purging them, emptying the trash they are in, a sweep they are due for, or the compaction of a container |
| `History.UploadContinues` | server/crates/store/src/service.rs:110-121 | an upload over a file joins its history, which keeps the replaced version from the orphan rule; an upload to a free path shares its lineage with no other row |
| `History.AnchorStep` | server/crates/store/src/manifest.rs:659-684 | a history keeps a current or trashed row unless the command takes it away for good or restores a file of another history over it |
| `History.HistoryKept` | server/crates/store/src/manifest.rs:659-684 | over every run without such a command no version of the history is an orphan, so age and number alone decide about it |
| `History.RestoreOrphansIff` | server/crates/store/src/service.rs:338-370 | a restore to an occupied path hands the occupant to the next sweep exactly when the two are of different histories and nothing else of the occupant's is current or in the trash |
| `History.RestoreCostsOccupant` | server/crates/store/src/service.rs:338-370 | a run in which it happens: the restored file's path had been reused, and under any policy the next sweep destroys the file that was current there |
| `History.TrashThenRestoreIff` | server/crates/store/src/service.rs:275-370 | trashing a file and restoring it puts everything back exactly when its path neither begins nor ends with a slash |
| `History.OverwriteThenRestore` | server/crates/store/src/service.rs:338-370 | restoring an overwritten version makes it current as it was and the newer one a version of the same history |
| `History.RenameThenBack` | server/crates/store/src/service.rs:623-657 | a rename moves the file at the path, and renaming back leaves everything as it was |
| `Manifest.TrimsOnlySlashes` | server/crates/store/src/service.rs:355-358 | trimming a path takes away slashes at its ends and nothing else |
| `Manifest.AssignFirstEffect` | server/crates/store/src/manifest.rs:723-750 | re-pointing a list of rows changes exactly those rows, each once, to its own range, and drops exactly their chunks |
| `Manifest.NotYetAssigned` | server/crates/store/src/service.rs:1063-1068 | a row this transaction already assigned fails the check, so duplicate entries abort |
| `Service.ManifestStore.constructor` | server/crates/store/src/manifest.rs:280-320 | a new store is the empty history |
| `Service.ManifestStore.FindByPath` | server/crates/store/src/manifest.rs:492-498 | the one row occupying a path key, if any |
| `Service.ManifestStore.StepAside` | server/crates/store/src/manifest.rs:554-586 | the occupant of a path is superseded and parked, everything else untouched |
| `Service.ManifestStore.Push` | server/crates/store/src/service.rs:52-162 | one lifecycle step: recognised as unchanged exactly when the live file at the path has the size and digest of the upload; otherwise current under the fresh id, with the replaced file a version of the same history that no sweep takes as a stray, or with a history of its own where the path was free |
| `Service.ManifestStore.MoveToTrash` | server/crates/store/src/service.rs:275-288 | one lifecycle step; fails exactly for a missing row or an old version that is not in the trash |
| `Service.ManifestStore.StampTrash` | server/crates/store/src/manifest.rs:554-576 | the second statement of a trash call, as a lifecycle step of its own |
| `Service.ManifestStore.Restore` | server/crates/store/src/service.rs:346-371 | one lifecycle step; the occupant of the target path becomes a version instead of being overwritten |
| `Service.ManifestStore.PurgeFile` | server/crates/store/src/service.rs:379-390 | look-up and deletion with nothing in between: one lifecycle step removing exactly that row and its chunks |
| `Service.ManifestStore.DeleteRow` | server/crates/store/src/manifest.rs:700-720 | the second statement of a purge: the row is gone afterwards, whether or not it was there |
| `Service.ManifestStore.PurgeTrash` | server/crates/store/src/service.rs:395-417 | removes exactly the rows of this user that are in the trash and changes no other |
| `Service.ManifestStore.SweepRetired` | server/crates/store/src/service.rs:467-512 | one lifecycle step removing exactly the expired rows, with the refunds of each account |
| `Service.ManifestStore.AssignAll` | server/crates/store/src/service.rs:1057-1072 | the transaction body: succeeds exactly when every row passes its check, and adds up exactly the storage given back |
| `Service.ManifestStore.PackFiles` | server/crates/store/src/service.rs:1042-1084 | one lifecycle step, or no change at all; returns the storage the members gave back |
| `Service.ManifestStore.CompactPack` | server/crates/store/src/service.rs:1100-1167 | one lifecycle step, or no change at all; returns the old container's storage |
| `Service.DropEach` | server/crates/store/src/service.rs:403-413 | purging a list of rows one by one equals dropping their set |
| `Service.AssignFailsForGood` | server/crates/store/src/service.rs:1059-1072 | one failing row aborts the whole transaction |
| `Service.PlanPacks` | server/crates/store/src/service.rs:1008-1026 | loads are consecutive runs of the input, at least two files each, never above the target and as full as the next file allows; only single-file loads are dropped |
| `Service.GroupFiles` | server/crates/store/src/service.rs:1012-1022 | the greedy grouping concatenates back to the input |
| `Storage.StepWeightless` | server/crates/store/src/manifest.rs:716-750 | in every state a packed row has no storage and no chunks of its own |
| `Storage.PackMovesStored` | server/crates/store/src/service.rs:1042-1084 | a packing changes the stored bytes of all rows by the new container less what it reports as freed |
| `Storage.CompactMovesStored` | server/crates/store/src/service.rs:1100-1167 | a compaction changes them by the new container, if any, less the old one |
| `Retention.NeverLive` | server/crates/store/src/manifest.rs:626-684 | a live row survives every sweep, whatever the policy |
| `Retention.SurvivesIff` | server/crates/store/src/service.rs:467-531 | what a sweep leaves, in days and seconds: a trashed row within trashDays, a version within versionDays that is not beyond the number to keep and whose history still has a current or trashed row |
| `Retention.OldestGoFirst` | server/crates/store/src/manifest.rs:646-658 | of two old versions of a file, the one that goes for their number was created earlier, or at the same time under an id that sorts before |
| `Retention.KeepsExactly` | server/crates/store/src/manifest.rs:643-658 | counting versions leaves each file exactly keep old versions, or all if it has fewer |
| `Retention.DaysClamped` | server/crates/store/src/service.rs:521-527 | negative days count as none and more than a century as a century |
| `Retention.RefundOfOne` | server/crates/store/src/service.rs:485-500 | a removed row is refunded with its size and storage, to its own account |
| `Retention.PurgeRetired` | server/crates/store/src/service.rs:467-512 | a sweep removes exactly the union of the four rules and refunds each removed row to its owner once |
| `Retention.PurgeCandidates` | server/crates/store/src/service.rs:485-500 | overlapping candidate lists: each distinct row is dropped and refunded once |
| `Retention.AfterSweepOnlyOrphans` | server/crates/store/src/manifest.rs:671-684 | after a sweep, with the cutoffs fixed, only orphaning expires anything |
| `Retention.SecondSweep` | server/crates/store/src/manifest.rs:646-684 | a second sweep takes exactly the history the first one orphaned |
| `Retention.ThirdSweep` | server/crates/store/src/manifest.rs:626-684 | a third sweep takes nothing |
| `PackFormat.BuildPack` | server/crates/store/src/service.rs:857-880 | fails exactly on an id or an index beyond its 32-bit length, and otherwise lays out payload, index and trailer |
| `PackFormat.AppendMembers` | server/crates/store/src/service.rs:860-864 | payload and ranges of the members in order |
| `PackFormat.AppendIndex` | server/crates/store/src/service.rs:865-874 | one record per member, refused exactly for an oversized id |
| `PackFormat.ReadIndexEntry` | server/crates/store/src/service.rs:918-928 | reads a record exactly when the bytes start with one |
| `PackFormat.ParseEntries` | server/crates/store/src/service.rs:907-913 | reads an index exactly when it consists of records, and terminates on every byte string |
| `PackFormat.IndexInjective` | server/crates/store/src/service.rs:865-874 | no two lists of entries share an index |
| `PackFormat.ParsePackIndex` | server/crates/store/src/service.rs:895-914 | accepts exactly the byte strings that end in a trailer and returns the one index it spells |
| `PackFormat.BuiltPackIndexed` | server/crates/store/src/service.rs:857-914 | a built container is one of them: its index reads back as the members' ids and ranges |
| `PackFormat.PackLayout` | server/crates/store/src/service.rs:853-881 | payload, index, length of the index in four bytes, the eight magic bytes |
| `PackFormat.RecordLayout` | server/crates/store/src/service.rs:853-873 | length of the id, id, offset and length, in that order and of fixed widths |
| `PackFormat.ValidUtf8Iff` | server/crates/store/src/service.rs:918-928 | the ids accepted are exactly the UTF-8 forms of sequences of Unicode scalar values |
| `Bytes.FirstByteFirst` | server/crates/store/src/service.rs:853-873 | fixed-width integers have the most significant byte first |
| `PackFormat.RangesTile` | server/crates/store/src/service.rs:860-864 | ranges are contiguous, disjoint and cover the payload |
| `PackFormat.RangeIsMember` | server/crates/store/src/service.rs:932-945 | slicing range i yields member i |
| `PackFormat.MemberSlice` | server/crates/store/src/service.rs:932-945 | a range is served exactly when it lies inside the container |
| `Erasure.ShardLen` | server/crates/core/src/erasure.rs:14-26 | shards are non-zero multiples of 64 bytes and ten of them hold the buffer |
| `Erasure.ShardDiskCost` | server/crates/core/src/erasure.rs:32-34 | whole blocks, at least the length and less than one block more |
| `Erasure.DataShards` | server/crates/core/src/erasure.rs:37-48 | the buffer-filling loop computes plain zero-padded striping |
| `Erasure.BorrowedShard` | server/crates/core/src/erasure.rs:80-87 | a borrowed slice, padded, is the very shard that plain striping gives |
| `Erasure.EncodeRecovery` | server/crates/core/src/erasure.rs:51-77 | zero-copy parity equals the parity of plain striping |
| `Erasure.Encode` | server/crates/core/src/erasure.rs:90-97 | the fourteen shards of a buffer |
| `Erasure.WriteChunkRows` | server/crates/store/src/service.rs:720-758 | what is stored is those fourteen shards, with their digests |
| `Erasure.PadShard` | server/crates/store/src/service.rs:762-771 | padding to the shard length |
| `Erasure.JoinStripe` | server/crates/core/src/erasure.rs:101-110 | joining stripes and trimming gives the buffer back |
| `Erasure.Decode` | server/crates/core/src/erasure.rs:112-149 | from any ten genuine shards the ten data shards; fewer than ten is an error |
| `Erasure.Reconstruct` | server/crates/core/src/erasure.rs:100-150 | from any ten genuine shards the buffer, by the fast path or by decoding; fewer is an error |
| `Erasure.RegenChunkShards` | server/crates/store/src/service.rs:680-683 | from any ten genuine shards all fourteen, byte for byte as first written |
| `Erasure.FetchChunkShards` | server/crates/server/src/handlers/files.rs:642-666 | the first ten distinct answers in any arrival order; with fewer than ten answers, all of them |
| `Backup.DecodeInvertsEncodeIff` | server/crates/store/src/backup.rs:476-506 | decode inverts encode exactly for a non-empty blob whose payload fits the 32-bit length field; otherwise it refuses |
| `Backup.EncodeInvertsDecode` | server/crates/store/src/backup.rs:476-506 | whatever decodes is the envelope of what it decodes to |
| `Backup.EncodeBackupShards` | server/crates/store/src/backup.rs:455-473 | one envelope per shard, all carrying the blob's length and hash |
| `Backup.Majority` | server/crates/store/src/backup.rs:526-539 | the geometry no other outvotes |
| `Backup.KeepConsistent` | server/crates/store/src/backup.rs:541-563 | the first agreeing shard of each index, all of one length |
| `Backup.TryRebuild` | server/crates/store/src/backup.rs:586-593 | accepts only a blob that matches the hash, and rebuilds the genuine one |
| `Backup.RebuildTolerant` | server/crates/store/src/backup.rs:565-582 | recovers from a single altered payload by leaving each slot out |
| `Backup.ReassembleManifestBackup` | server/crates/store/src/backup.rs:521-583 | a result always has a hash that no other length and hash outvote; fewer than ten envelopes are refused as such; and when more envelopes name the blob's length and hash than any other and cover ten indices unaltered, or eleven with one altered, the result is the blob, in any order |
| `Backup.GenuineIsRecoverable` | server/crates/store/src/backup.rs:455-473 | any genuine envelopes that cover ten indices, of whatever versions and however often, satisfy that condition |
| `Placement.BestSlot` | server/crates/server/src/placement.rs:165-199 | the first eligible location of minimal score |
| `Placement.ChooseSlot` | server/crates/server/src/placement.rs:160-212 | zone caps first, relaxed only when nothing fits, local when everything is full |
| `Placement.PlanPlacementZoned` | server/crates/server/src/placement.rs:131-216 | no peer above the cap and the owner only once all are full; no zone label carries more than the cap exactly when there are zones enough, one for each label and one for each unlabelled peer; then every prefix of the plan has minimal total score among all layouts under the caps; and of two peers the one no farther and no flakier never gets fewer shards, unless neighbours in its zone hold it back or the two are alike and it is listed later |
| `Placement.ZoneLossSurvivable` | server/crates/server/src/placement.rs:140-215 | losing every location with any one zone label leaves at least total - parity shards |
| `Placement.KeysAgreeIff` | server/crates/server/src/placement.rs:140-152 | two peers share a zone key exactly when they carry the same non-empty label, a peer and the owner when the peer carries the owner's label or, for an owner without, @self |
| `Placement.ObeysIffCapped` | server/crates/server/src/placement.rs:140-199 | caps by zone key are caps by zone label |
| `Placement.ZonesCounted` | server/crates/server/src/placement.rs:140-152 | the number of zones is the number of labels plus the number of unlabelled peers |
| `Placement.PriceRises` | server/crates/server/src/placement.rs:184-190 | the price of a peer rises with its distance and falls with its reliability |
| `Placement.DistanceDecidesIff` | server/crates/server/src/placement.rs:30-35 | distance alone decides between two peers exactly when they are more than half the largest distance apart |
| `Placement.TenTimesNearerIsDearer` | server/crates/server/src/placement.rs:30-35 | so a peer ten times nearer can lose on reliability |
| `Placement.OwnerOverflowsIff` | server/crates/server/src/placement.rs:200-212 | the owner is overloaded exactly when all locations together cannot carry the total, by exactly the remainder |
| `ZoneGreedy.SymmetricExchange` | server/crates/server/src/placement.rs:160-199 | two different layouts under the caps can trade a shard in both directions |
| `ZoneGreedy.SettledIsOptimal` | server/crates/server/src/placement.rs:160-199 | a layout no single move improves is cheapest of all |
| `ZoneGreedy.CheapestKeepsSettled` | server/crates/server/src/placement.rs:160-199 | adding the cheapest admissible shard keeps that |
| `ZoneGreedy.CapacityBound` | server/crates/server/src/placement.rs:140-160 | caps allow at most cap shards per distinct zone |
| `Rebalance.TargetCounts` | server/crates/server/src/rebalance.rs:84-94 | the per-location tally of the planned layout |
| `Rebalance.GroupByLocation` | server/crates/server/src/rebalance.rs:105-109 | every shard listed once, at its location |
| `Rebalance.CollectDonors` | server/crates/server/src/rebalance.rs:111-123 | each reachable location gives up exactly its excess, unreachable ones nothing |
| `Rebalance.FillReceiver` | server/crates/server/src/rebalance.rs:127-138 | a receiver is tried for exactly as often as it lacks shards, unless the pool runs dry |
| `Rebalance.RebalanceChunk` | server/crates/server/src/rebalance.rs:104-139 | shards conserved, no location above max(start, target), a chunk at target untouched; different shards are tried, only from reachable locations above target to ones below, all that is spare or all that is lacking; and the target is reached exactly when every donor is reachable and every attempted move works, with exactly the excess moved |
| `Rebalance.ReachedWhenPossible` | server/crates/server/src/rebalance.rs:104-139 | if donors are reachable and every move from an excess to a deficit would work the target is reached; if a donor is out of reach it is not |
| `Rebalance.AttemptIsSensible` | server/crates/server/src/rebalance.rs:111-138 | an attempt takes a shard from a location with some to spare to one that lacks some |
| `Rebalance.FewestMoves` | server/crates/server/src/rebalance.rs:80-83 | no re-homing reaches a spread with fewer moves |
| `Rebalance.SpreadSurvivesIff` | server/crates/server/src/rebalance.rs:57-73 | a chunk spread as planned survives the loss of any one location exactly when at least three peers are live |
| `Rebalance.ReachedIsAsSafe` | server/crates/server/src/rebalance.rs:80-83 | which shard sits where does not matter, only the counts |
| `Rebalance.RebalanceAll` | server/crates/server/src/rebalance.rs:30-152 | the pass does this to every chunk; without live peers it changes nothing |
| `Rebalance.PlanTarget` | server/crates/server/src/rebalance.rs:57-94 | the target is the placement planner's own layout, tallied by location |
| `Rebalance.ReachedSurvivesZones` | server/crates/server/src/rebalance.rs:57-73 | with enough zones a chunk that reached the target survives the loss of all locations with any one zone label |
| `Repair.PlanChunk` | server/crates/server/src/repair.rs:401-416 | lost shards are rebuilt, graced ones only when the margin is critical, the rest deferred |
| `Repair.ChooseTarget` | server/crates/server/src/repair.rs:503-532 | nobody has fewer shards of the chunk than the choice, of those with as few nobody is more reliable, of those as reliable nobody has an earlier name |
| `Repair.ReliabilityDefaults` | server/crates/server/src/repair.rs:512-520 | this node counts as fully reliable, a peer without a score as not at all |
| `Repair.BestIsUnique` | server/crates/server/src/repair.rs:503-532 | the choice does not depend on the order of candidates |
| `Repair.TargetUnderCap` | server/crates/server/src/repair.rs:490-502 | while any candidate has room the choice is under the cap |
| `Repair.FetchLive` | server/crates/server/src/repair.rs:421-438 | live shards until ten are in hand |
| `Repair.CountStaying` | server/crates/server/src/repair.rs:460-470 | how many of the remaining copies each location has |
| `Repair.PlaceMissing` | server/crates/server/src/repair.rs:472-488 | every accepted placement is recorded and counted, and a location given a shard ends with at most one more than any other candidate |
| `Repair.Heals` | server/crates/server/src/repair.rs:401-416 | at least twelve verified afterwards, and all if fewer than twelve were live |
| `Repair.RebuildShards` | server/crates/server/src/repair.rs:421-458 | all fourteen originals from ten fetched ones |
| `Repair.RepairChunk` | server/crates/server/src/repair.rs:420-488 | with ten live shards fetched and placements accepted the chunk heals; every copy written is the original; with enough room no location ends with more usable copies than max(start, PARITY_SHARDS), nor with more rows if every placement succeeds; and a location given a shard ends with at most one more of this chunk than any other candidate |
| `RepairQueue.FullBufferStep` | server/crates/server/src/repair.rs:334-340 | one more chunk against a full buffer keeps the smallest margins |
| `RepairQueue.PendingRepairs.Push` | server/crates/server/src/repair.rs:328-340 | after any pushes the buffer holds exactly the smallest margins seen, and buffered plus deferred is everything seen |
| `RepairQueue.PendingRepairs.Peek` | server/crates/server/src/repair.rs:144-163 | a least endangered chunk |
| `RepairQueue.PendingRepairs.IntoSorted` | server/crates/server/src/repair.rs:318-323 | the repair order is ascending and still the smallest margins |
| `CrashSafety.StepKeeps` | server/crates/store/src/service.rs:946-953 | every step of every operation, crashes included (after which any of the queued deletions may still be there), keeps rows and bytes together, a start being admitted when it creates no clash |
| `CrashSafety.CommitKeeps` | server/crates/store/src/service.rs:403-413 | a commit queues for deletion only shards whose rows it removed |
| `CrashSafety.CommitQueues` | server/crates/store/src/service.rs:403-413 | and queues the recorded copy of every row it removed |
| `CrashSafety.StepStraysIff` | server/crates/server/src/handlers/files.rs:422-430 | while nothing crashes or stops half-way, a step leaves a copy that no row, queue or relocation knows of exactly when it records a location although the row has gone, or over a recorded copy that nobody else is going to delete |
| `CrashSafety.PurgeStrandsCopy` | server/crates/server/src/handlers/files.rs:403-434 | a run in which it happens: a file purged while a shard of it is on its way to a peer |
| `CrashSafety.RecordKeeps` | server/crates/server/src/handlers/files.rs:422-430 | recording a new location follows the store, and nobody able to is about to drop that copy |
| `CrashSafety.DropKeeps` | server/crates/server/src/rebalance.rs:158-178 | dropping the old copy hits neither the recorded copy nor one about to be recorded |
| `CrashSafety.EveryCrashPointSafe` | server/crates/store/src/service.rs:954-995 | at every point of every interleaving whose starts create no clash, with fetching and storing apart, each row's bytes are at its recorded location and nothing queued for deletion is needed |
| `CrashSafety.RobustIff` | server/crates/server/src/rebalance.rs:158-178 | a state survives every continuation exactly when rows have their bytes, copies about to be recorded are there, copies about to be dropped are not the recorded ones, and no two relocations in flight that can still get their bytes clash, one about to delete the copy the other will record |
| `CrashSafety.ReachedRobustIff` | server/crates/server/src/rebalance.rs:158-178 | this decides every reachable state, however relocations were started |
| `CrashSafety.AdmittedIff` | server/crates/server/src/rebalance.rs:158-178 | a start leaves a state that survives every continuation exactly when it creates no clash and nothing was broken before |
| `CrashSafety.CarefulIsDisciplined` | server/crates/server/src/rebalance.rs:158-178 | starting only relocations that clash with none in flight is enough |
| `CrashSafety.Feed` | server/crates/server/src/rebalance.rs:163-169 | a copy within reach of the relocations in flight can be brought there without touching rows or other copies |
| `CrashSafety.ClashLoses` | server/crates/server/src/handlers/files.rs:422-430 | two clashing relocations that can still get their bytes, moves or repairs, have an interleaving that loses the shard |
| `CrashSafety.DistributionAgainstRebalance` | server/crates/server/src/handlers/files.rs:403-434 | and such a run starts from an empty node: a distribution about to delete the local copy while a rebalance brings the shard home |
| `Accounting.QuietAccountsAreExact` | server/crates/server/src/handlers/files.rs:93-201 | with nothing in flight and no purge too late for its row, an account's counter is the sum of its rows |
| `Accounting.StepKeeps` | server/crates/server/src/handlers/files.rs:93-201 | every statement of every handler keeps both counters within exactly the recorded deviations of rows plus amounts in flight |
| `Accounting.FreedWeighs` | server/crates/store/src/service.rs:485-500 | the credits of a transactional removal are, account by account, the sizes of the removed rows |
| `Accounting.OwedMoves` | server/crates/server/src/handlers/files.rs:225-243 | only charges, refunds, credits and deletions that find nothing change what an account owes |
| `Accounting.StoredMoves` | server/crates/server/src/handlers/files.rs:1190-1203 | what an operation reports to the node is its change of stored bytes, except that a purge reports what it had looked up |
| `Accounting.QuotaStep` | server/crates/server/src/handlers/files.rs:93-104 | usage never passes a quota that is not lowered |
| `Accounting.GiveBackFits` | server/crates/server/src/handlers/files.rs:1025-1053 | while the accounts are exact the clamp at zero never binds for them |
| `Accounting.StepRightIff` | server/crates/server/src/handlers/files.rs:1168-1186 | while both counters equal what they summarise, a step leaves them so if and only if a deletion still finds its row with the looked-up storage and a settled amount does not take the node below zero |
| `Accounting.BooksRightIff` | server/crates/server/src/handlers/files.rs:1025-1133 | both counters are right at every moment of a run if and only if every purge still finds what it looked up and every amount settled fits the node's counter when it is settled |
| `Accounting.StepAccountsIff` | server/crates/server/src/handlers/files.rs:986-1002 | from exact accounts a step leads to exact accounts if and only if a deletion still finds its row |
| `Accounting.AccountsRightIff` | server/crates/server/src/handlers/files.rs:986-1002 | the accounts alone are right throughout if and only if no purge deletes a row of non-zero size that is already gone |
| `Accounting.PatientBooksAreRight` | server/crates/server/src/handlers/files.rs:182-201 | they are when purges find what they looked up and nothing is subtracted from the node while an addition is on its way |
| `Accounting.StepExactIff` | server/crates/store/src/service.rs:379-390 | up to the node's clamp a step keeps the books exact if and only if a deletion still finds its row with the looked-up storage |
| `Accounting.BooksExactIff` | server/crates/store/src/service.rs:379-390 | up to the node's clamp, which may bind, the books are exact throughout a run if and only if every purge still finds what it looked up |
| `Accounting.DriftsIff` | server/crates/server/src/handlers/files.rs:1168-1186 | over a run the clamp keeps something from the node's counter exactly if some settled amount did not fit |
| `Accounting.EveryRunBalances` | server/crates/server/src/handlers/files.rs:1025-1133 | after any interleaving accounts are within quota and never overstated; if every purge was clean they are exact and the node never falls short, exact if and only if every settled amount fitted |
| `Accounting.DoublePurge` | server/crates/server/src/handlers/files.rs:986-1002 | two purges of one file credit it twice: account and node show less than is stored, or the clamps stop them |
| `Accounting.PackingOvertakesPurge` | server/crates/store/src/service.rs:379-390 | a packing of two files between the two statements of a purge of one leaves the node short by what that file had stored, or at zero |
| `Accounting.PurgeOvertakesUpload` | server/crates/server/src/handlers/files.rs:182-201 | a purge overtaking its upload meets the node's clamp and leaves a removed file on the counter for good |
| `Accounting.NoOrderClampsIff` | server/crates/server/src/handlers/files.rs:1168-1186 | no order of settling what is in flight meets the node's clamp if and only if the counter covers the pending subtractions, that is the pending additions are at most what is stored |
| `Accounting.SettlesClampIff` | server/crates/server/src/handlers/files.rs:1168-1186 | settling in a given order loses something to the clamp exactly if that order meets it |
| `Accounting.SettledUploadsNeverClamp` | server/crates/server/src/handlers/files.rs:182-201 | while the node does not fall short no order does as long as no addition is in flight |
| `Accounting.Ledger.Reserve` | server/crates/server/src/handlers/files.rs:93-104 | check and charge in one guarded update |
| `Accounting.Ledger.Return` | server/crates/server/src/handlers/files.rs:225-243 | a refund or credit, clamped at zero |
| `Accounting.Ledger.AdjustNode` | server/crates/server/src/handlers/files.rs:1168-1186 | the node's counter moved by a delta, clamped at zero |
| `NodeIds.BucketIndexIff` | server/crates/p2p/src/dht.rs:214-231 | the bucket is the most significant differing bit, and none exactly for our own id |
| `NodeIds.LowerBucketIsFarther` | server/crates/p2p/src/dht.rs:222-231 | bucket 0 holds the farthest nodes, not the closest |
| `NodeIds.XorInjective` | server/crates/p2p/src/dht.rs:214-220 | no two nodes are equally far from a target |
| `NodeIds.NearerIff` | server/crates/p2p/src/dht.rs:214-220 | of two nodes the nearer to a target is the one that agrees with it in the most significant bit in which the two differ |
| `AddrPolicy.NoSecondSpelling` | server/crates/p2p/src/dht.rs:153-194 | under the strict policy the mapped spelling of an IPv4 address is judged like the address and the compatible one refused |
| `AddrPolicy.PermissiveSpellings` | server/crates/p2p/src/dht.rs:118-126 | the permissive policy accepts the IPv6 spellings, and so differs from the plain address exactly for the unspecified, multicast and broadcast ones |
| `AddrPolicy.StrictIsStricter` | server/crates/p2p/src/dht.rs:118-130 | the strict policy accepts nothing the permissive one refuses |
| `AddrPolicy.RoutableIff` | server/crates/p2p/src/dht.rs:153-170 | the strict policy accepts an IPv4 address exactly when it lies in none of thirteen special-purpose blocks |
| `AddrPolicy.Routable6Iff` | server/crates/p2p/src/dht.rs:172-194 | and an IPv6 address exactly when it lies in none of five and embeds no IPv4 address |
| `Routing.AddToOk` | server/crates/p2p/src/dht.rs:285-326 | a bucket keeps at most K entries, unique ids and its distance |
| `Routing.AddToEvicts` | server/crates/p2p/src/dht.rs:310-326 | losing a place takes a full bucket, another id and more than STALE_AFTER of silence; a verified node goes only if no unverified one is that silent |
| `Routing.AddToKeepsSeen` | server/crates/p2p/src/dht.rs:285-326 | a node heard from within STALE_AFTER keeps its place |
| `Routing.UnprovedCannotMove` | server/crates/p2p/src/dht.rs:289-304 | hearsay never moves a verified node |
| `Routing.IdsUnique` | server/crates/p2p/src/dht.rs:266-283 | no id twice in the table, our own never |
| `Routing.AddedOk` | server/crates/p2p/src/dht.rs:285-326 | inserting an acceptable, honestly marked node keeps the table so |
| `Routing.MarkedOk` | server/crates/p2p/src/dht.rs:328-337 | marking a proved address keeps the table so |
| `Routing.ClosestAreNearest` | server/crates/p2p/src/dht.rs:347-353 | the closest nodes: as many as asked, none left out is nearer |
| `Routing.NearerMeans` | server/crates/p2p/src/dht.rs:347-353 | nearness in the table is nearness by the XOR metric |
| `Routing.AllOnce` | server/crates/p2p/src/dht.rs:343-346 | the search starts from every entry of every bucket, each once |
| `Routing.AddToAdmitsIff` | server/crates/p2p/src/dht.rs:285-326 | a sighted node is listed afterwards exactly when it was before, its bucket has room, or somebody in it has been silent for fifteen minutes |
| `Routing.SightingRefreshes` | server/crates/p2p/src/dht.rs:289-304 | a sighting moves a listed node to the end of its bucket with the new time, and with the new address exactly when that is proved |
| `Routing.MarkedMeans` | server/crates/p2p/src/dht.rs:328-337 | a proof verifies and refreshes exactly the entries at its address |
| `Routing.RoutingTable.constructor` | server/crates/p2p/src/dht.rs:272-274 | an empty table |
| `Routing.RoutingTable.Add` | server/crates/p2p/src/dht.rs:285-326 | the in-place update is the specified insertion |
| `Routing.RoutingTable.MarkVerified` | server/crates/p2p/src/dht.rs:328-337 | every entry at the address, and no other, becomes verified |
| `Dht.AllowLearnBounded` | server/crates/p2p/src/dht.rs:369-380 | the learning map stays bounded, counts within the window's budget |
| `Dht.NoteQueryBounded` | server/crates/p2p/src/dht.rs:382-385 | the pending map stays bounded |
| `Dht.AllowPingBounded` | server/crates/p2p/src/dht.rs:396-405 | the ping map stays bounded |
| `Dht.SourceState.constructor` | server/crates/p2p/src/dht.rs:357-366 | empty bookkeeping |
| `Dht.SourceState.PruneAll` | server/crates/p2p/src/dht.rs:407-430 | the in-place pruning is the specified one |
| `Dht.SourceState.MayLearn` | server/crates/p2p/src/dht.rs:369-380 | one more entry for an IP within its window |
| `Dht.SourceState.Note` | server/crates/p2p/src/dht.rs:382-385 | a query is remembered |
| `Dht.SourceState.Take` | server/crates/p2p/src/dht.rs:387-394 | an outstanding query is consumed, and counts only within PENDING_TTL |
| `Dht.SourceState.MayPing` | server/crates/p2p/src/dht.rs:396-405 | challenges to one address are throttled |
| `Dht.SettleInv` | server/crates/p2p/src/dht.rs:705-710 | an answer promotes its sender only after a recent query to that very address |
| `Dht.LearnInv` | server/crates/p2p/src/dht.rs:682-694 | learning keeps the invariant |
| `Dht.ImportOk` | server/crates/p2p/src/dht.rs:531-547 | any imported snapshot keeps the invariant |
| `Dht.StepInv` | server/crates/p2p/src/dht.rs:696-767 | every event keeps the invariant |
| `Dht.EveryRunProves` | server/crates/p2p/src/dht.rs:682-767 | in every reachable state the table is well formed, the maps bounded, every address acceptable, and every verified address answered, within PENDING_TTL, a query to exactly that address |
| `Dht.SentQueriesProve` | server/crates/p2p/src/dht.rs:576-592 | address by address: if every query to it left, a verified entry there rests on a query that left; if none left, it does not |
| `Dht.UnsentQueryProves` | server/crates/p2p/src/dht.rs:582-591 | a query is noted before it is sent, so one that never left still proves an address |
| `Dht.StepKeepsSeen` | server/crates/p2p/src/dht.rs:310-326 | no event displaces a node heard from within STALE_AFTER |
| `Dht.InTouchIsNeverDisplaced` | server/crates/p2p/src/dht.rs:271-326 | a node that keeps in touch is never displaced in any run |
| `Dht.LongAnswersAreEarned` | server/crates/p2p/src/dht.rs:725-749 | more than K_UNVERIFIED records go only to an address that answered us |
| `Dht.ClosestAnswers` | server/crates/p2p/src/dht.rs:725-742 | the nodes returned are the nearest to the requested target among all entries, and of exactly that number |
| `DhtLimits.ChallengesApart` | server/crates/p2p/src/dht.rs:396-405 | with fewer than 4096 sources nobody is challenged twice within half a minute, and a challenge is let through exactly when the last one was longer ago |
| `DhtLimits.SixteenPerMinute` | server/crates/p2p/src/dht.rs:369-380 | within a minute of its first new entry an IP address gets exactly sixteen in, or all if it sends fewer, and later it gets in again |
| `DhtLimits.ProofIsUsedOnce` | server/crates/p2p/src/dht.rs:387-394 | a query proves at most one answer |
| `DhtLimits.SolicitedIff` | server/crates/p2p/src/dht.rs:703-711 | an answer proves its source exactly when a query to it was noted within two minutes, and only then the table is marked |
| `DhtLimits.UnprovedIsChallenged` | server/crates/p2p/src/dht.rs:743-748 | who asks for nodes unproved is challenged, unless it was within half a minute; who is proved is not |
| `DhtLimits.LearnedIff` | server/crates/p2p/src/dht.rs:682-694 | a node is listed after it was heard of exactly when it was before, or its address, its budget and its bucket allow it |
| `DhtLimits.RefusedForFree` | server/crates/p2p/src/dht.rs:682-694 | our own id and unacceptable addresses cost no budget |
| `DhtLimits.RestoredIff` | server/crates/p2p/src/dht.rs:531-547 | a record of a snapshot is listed exactly when its node was before, or it parses, is acceptable and finds a place |
| `Dht.DhtNode.constructor` | server/crates/p2p/src/dht.rs:490-507 | a new node is the initial state |
| `Dht.DhtNode.SendQuery` | server/crates/p2p/src/dht.rs:576-592 | refused by policy, or noted and sent |
| `Dht.DhtNode.SendChallenge` | server/crates/p2p/src/dht.rs:743-748 | a throttled ping |
| `Dht.DhtNode.LearnNode` | server/crates/p2p/src/dht.rs:682-694 | policy, budget, then insertion; says whether the table gained an id |
| `Dht.DhtNode.LearnRecords` | server/crates/p2p/src/dht.rs:750-764 | third-party records are learned one by one, unverified |
| `Dht.DhtNode.MeetSender` | server/crates/p2p/src/dht.rs:705-716 | settle the proof, then learn the sender |
| `Dht.DhtNode.Receive` | server/crates/p2p/src/dht.rs:696-767 | one datagram is exactly one step; a ping is answered by a pong, a query by the entries nearest to its target, nearest first, as many as there are up to eight for a source listed as verified and two for any other, and nothing else is answered |
| `Dht.DhtNode.ImportNodes` | server/crates/p2p/src/dht.rs:531-547 | a restored snapshot is one step |
| `Sealing.LpConcat` | server/crates/core/src/crypto.rs:81-94 | the appending loop computes the canonical encoding |
| `Sealing.LpInjective` | server/crates/core/src/crypto.rs:75-94 | different lists of parts never encode alike |
| `Sealing.NonceInjective` | server/crates/core/src/crypto.rs:291-295 | different indices give different nonces |
| `Sealing.SubkeyInjective` | server/crates/core/src/crypto.rs:223-270 | owner and file are bound into a v2 subkey, and no v1 subkey is a v2 one |
| `Sealing.AadIsCanonical` | server/crates/core/src/crypto.rs:444-490 | the precomputed prefix plus the index is the canonical encoding at every index |
| `Sealing.AadInjective` | server/crates/core/src/crypto.rs:385-421 | no two chunk places share additional data |
| `Sealing.OpensOnlyInItsPlace` | server/crates/core/src/crypto.rs:492-514 | a v2 chunk opens exactly under its own owner, file, chunk count and index |
| `Sealing.LegacyOpensIff` | server/crates/core/src/crypto.rs:363-368 | a v1 chunk opens under any owner and count, exactly at its file and index |
| `Pipeline.ChunkCountAgrees` | server/crates/core/src/pipeline.rs:80-90 | the closed form is the number of chunks, which are non-empty and join back to the data |
| `Pipeline.ProcessWithScheme` | server/crates/core/src/pipeline.rs:93-132 | every chunk sealed in its place; refused exactly for a zero chunk size or an index above the bound |
| `Pipeline.ReadFile` | server/crates/store/src/service.rs:189-211 | the read loop opens and restores the stored chunks in order |
| `Pipeline.ReadsSelectionIff` | server/crates/store/src/service.rs:189-211 | any selection of the chunk rows reads as exactly the selected chunks under the true chunk count, and not at all under another, unless it is empty |
| `Pipeline.RoundTrip` | server/crates/core/src/pipeline.rs:93-132 | uploading and reading back is the identity |
| `Pipeline.LossNoticedIff` | server/crates/core/src/crypto.rs:396-399 | chunk rows lost anywhere are noticed exactly when some row is left and the claimed count is not the true one; otherwise a shorter file reads without error |
| `Pipeline.StrangerReadsNothing` | server/crates/core/src/crypto.rs:21-26 | no other owner, file id or scheme opens a v2 file |
| `Pipeline.NoPairReused` | server/crates/core/src/crypto.rs:303-320 | with fresh file ids no run of uploads, packings and compactions seals two chunks under one key and nonce |
| `Jobs.StepKeeps` | server/crates/server/src/jobs.rs:156-264 | every statement of every worker keeps the invariant |
| `Jobs.EveryRunIsFair` | server/crates/server/src/jobs.rs:156-264 | two claims of a job are separated by a requeue, attempts counts the claims, only finished jobs are purged |
| `Jobs.EveryChainEnds` | server/crates/server/src/jobs.rs:100-145 | no chain of remote-deletion retries is longer than GC_MAX_ATTEMPTS |
| `Jobs.RetryWaitsLonger` | server/crates/server/src/jobs.rs:134-145 | each retry waits five minutes longer than the one before it |
| `Jobs.EnqueueCoalesces` | server/crates/server/src/jobs.rs:50-76 | queueing a coalesced pass that already waits adds nothing; anything else waits once more |
| `Jobs.QueuedAndFinished` | server/crates/server/src/jobs.rs:50-76 | a queued job is new, untried and due at once; a finished one is done or failed as it went |
| `Jobs.AgesDecide` | server/crates/server/src/jobs.rs:211-264 | a job is forgotten exactly when finished and created over thirty days ago, taken back exactly when running and created over an hour ago |
| `Jobs.SomeListing` | server/crates/server/src/jobs.rs:216-264 | what a bulk statement selects can always be listed |
| `Jobs.CollectUnconfirmed` | server/crates/server/src/jobs.rs:108-133 | exactly the shards of known peers that did not confirm |
| `Jobs.JobQueue.constructor` | server/crates/server/src/jobs.rs:156-160 | an empty queue |
| `Jobs.JobQueue.Add` | server/crates/server/src/jobs.rs:50-76 | a pass already waiting is not queued twice |
| `Jobs.JobQueue.SelectCandidate` | server/crates/server/src/jobs.rs:159-172 | the due pending job with the smallest id |
| `Jobs.JobQueue.TryClaim` | server/crates/server/src/jobs.rs:174-186 | the conditional update: true exactly for the claimer that won |
| `Jobs.JobQueue.MarkFinished` | server/crates/server/src/jobs.rs:200-209 | unconditional |
| `Jobs.JobQueue.RequeueStale` | server/crates/server/src/jobs.rs:216-236 | running jobs created more than an hour ago become pending |
| `Jobs.JobQueue.PurgeOld` | server/crates/server/src/jobs.rs:241-264 | finished jobs past the retention are dropped |
| `Jobs.JobQueue.RunGcRemote` | server/crates/server/src/jobs.rs:100-145 | a retry with the unconfirmed shards and one more attempt, until the attempts run out |

## Left out

- Folder operations: renaming, trashing and listing subtrees, whose SQL `LIKE` matching differs from a plain path prefix; single files only.
- User commands that name a container's own id, and the deletion of a whole account.
- Paths are assumed free of the U+0001 prefix that marks parked and container keys; digests and BLAKE3 hashes are assumed free of collisions.
- Service calls are atomic except where a lemma says otherwise; a location update is assumed to succeed or the process to stop.
- Losses from outside (disks, peers that drop data) in `CrashSafety`: they are the subject of `Repair`.
- Internals of AES-GCM, HKDF, BLAKE3, zstd, Ed25519, SQLCipher and the Reed-Solomon library; entropy estimation; floating-point rounding (scores are reals, latencies finite).
- Sealed chunks in `Sealing` and `Pipeline` are terms, not bytes; `Erasure` treats the sealed bytes.
- Caps after an upload fails over to another peer: the failover ignores them, so caps are stated for the plan and for repair.
- Backup.ReassembleManifestBackup: shards of unequal length, where the first one fixes the length; recovery is stated for altered bytes of unchanged length. The sealing layout and the daily nonce of the snapshot are not modelled.
- Zone labels are inputs of the planner; deriving one from an address is not modelled.
- Repair.RepairChunk: one fully recorded chunk; shard classification, scrub sampling, peer health and events are inputs.
- Rebalance.RebalanceAll: the peers' order by latency only decides the order of receivers, which the results do not depend on.
- Dht.EveryRunProves: handling one datagram is atomic, and the learning budget is stated for an IP whose window is not lost to pruning (`DhtLimits.SixteenPerMinute`): the charge goes to the record's own IP, not the sender's, and a full map may be emptied. Bootstrap and refresh rounds are sequences of queries and probes; hexadecimal and address parsing are inputs.
- Service.ManifestStore.PurgeFile: nothing happens between its look-up and its deletion; `Service.ManifestStore.DeleteRow` is the deletion alone and `Accounting` treats the two as separate statements.
- Accounting.EveryRunBalances: counter updates are assumed to succeed; the code logs a failed one as drift.
- Jobs.EveryRunIsFair: a worker may claim or finish any job at any time, which covers every worker of the code; back-off times are recorded, not enforced.
- Packing candidates' selection, occupancy thresholds and the background schedule; TCP and UDP transport, mDNS, HTTP routing, settings, GeoIP, SQL dialects, migrations and the web front end.
- Handshakes, key pinning, hosted-byte counters and jurisdiction filters: single-branch checks.
