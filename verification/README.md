# LineairDB in Dafny: commit, durability, recovery and the columnar store

A verification project for the transactional spine of LineairDB. Protocols that run on several
threads are step machines: a state, one predicate or function per atomic step, and theorems about
every run, so about every interleaving and every crash point. Sequential code that works in place
is a class or a method with loops, proved against a specification function whose properties are
proved separately. `dafny verify dfyconfig.toml` checks everything.

## Parts

- **Commit and reaper** (`Silo*.dfy`). Committers resolve slots, lock them in address order,
  re-read the epoch, validate, install row by row with torn intermediate states, publish and
  register purges; stable readers copy byte by byte; a reaper locks, detaches and retires
  tombstones; the clock ticks at any time. `SiloModel` has one `Can`/`Do` pair per step:
  resolve (src/stateless/commit.cpp:105-207), lock and attachment check (:240-274),
  serialization point (:276-282), read validation (:308-350), install (:541-576), publication
  (:614-630), purge registration (:641-650), abort (:227-238), the reaper
  (src/index/reaper.cpp:80-181) and the stable read (src/concurrency_control/stable_read.hpp:57-83).
  `SiloUnprotected` builds, for any request with an unprotected read, the run in which it misses;
  `SiloInserts` ties the insert checks to the serial order.
- **Whole engine** (`Engine*.dfy`). The commit machine and the durability machine run together: a
  transaction joins the clock, takes its point, logs, captures the policy and leaves. One wait-for
  relation covers row locks, epoch closure, the flusher, waiting commits and the policy switch; one
  crash theorem joins what the device holds with the serial order; and `EngineLives` chains crash,
  fold and restart over any number of lives.
- **Epochs** (`Epochs.dfy`). The join loop and the writer's slot-by-slot scan, shown to refine an
  abstract clock. The other machines are built on that clock.
- **Durability** (`Durability.dfy`, `DurabilityProgress.dfy`). Enqueue, policy capture, group
  flush, publication, acknowledgement, policy switch, crash and restart.
- **Write-ahead log** (`LogRecords.dfy`, `WalFormat.dfy`, `WalScan.dfy`, `WalTheorems.dfy`,
  `Wal.dfy`). The byte format, what a scan means, its theorems, and the object that scans,
  repairs, extends and appends in place under I/O failures. CRC-32C (section 12.1 of RFC 3720) is
  any function into 32 bits; the record codec is any pair in which decoding undoes encoding.
- **Recovery and checkpoint** (`RecoveryFold.dfy`, `Checkpoint.dfy`, `LoggedHistories.dfy`,
  `CapturedImages.dfy`, `CheckpointRestart.dfy`). The fold of logged writes, the fuzzy capture, what
  the logger writes of commits and the scan of captured items, and what becomes of an image after a
  restart.
- **Columnar store** (`PaxCodec.dfy`, `PaxRow.dfy`, `PaxGroup.dfy`, `ReadView.dfy`). Typed cells,
  row format, strips in one arena, and undo-based read views.
- **Lists, scans, statistics, checks** (`PackedKeys.dfy`, `Overlay.dfy`, `RangeReplay.dfy`,
  `IndexStats.dfy`, `CommitChecks.dfy`), and the interleaved commits of UNIQUE lists with the reaper
  (`UniqueCommits.dfy`).

`Basics.dfy` holds shared types and the order of version words.

## Properties that do not hold as they stand

- Reads of absent keys are checked for liveness only, so two requests that each insert the key the
  other found absent can both commit (`SiloAnomaly.AbsentReadsAdmitWriteSkew`). The dividing line is
  exact. Every other read, a present one or an absent one of a key the request itself writes, is
  serial in every run. For every request with an absent read of a key it does not write there is a
  run in which it commits with that read wrong (`SiloUnprotected.UnprotectedReadCanMiss`).
- An image that outlives a restart keeps agreeing with the log if and only if the frames of the log
  had reached the image's cut, or the cut is 1 or less
  (`CheckpointRestart.ImageOutlivesRestartIffLogReachedCut`). Otherwise
  the resumed epochs start at or below the cut, and a later recovery from the same image skips what
  was committed in them. Idle epochs make this possible (`CheckpointRestart.IdleEpochsOutrunTheLog`).
- Text such as `007` as an integer, or `+5` and `-0.00` as decimals, is accepted by the typed cell
  codec and rendered differently; the round trip is exact if and only if the text is canonical
  (`PaxCodec.TypedTextExact`, `PaxGroup.ScatterGatherExact`). The comment at
  src/pax/pax_store.cpp:16-24 asks for a byte-identical round trip of whatever is accepted.
- A decimal whose scaled magnitude reaches 2^127 overflows the 128-bit accumulator, whose range is
  checked only at the end. Up to there a text is accepted exactly as promised; past it, it should be
  refused, and is accepted as another number whenever the wrapped value is in range
  (`PaxCodec.ParseDecExact`, `PaxCodec.OverflowIsAccepted`). So a row is taken exactly when all its
  fields fit as promised or some decimal in it overflows into range (`PaxGroup.RowFitsAsPromised`).
  Signed overflow is undefined in C++; the model wraps in two's complement.
- A request may remove and add the same primary key in one transaction. The fold keeps the first of
  two operations under one version, so recovery from the log drops the key although it is listed,
  while an image taken later keeps it (`RecoveryWitnesses.RemoveThenAddIsLost`). A logged operation on
  an empty primary key is dropped, while a captured list keeps it
  (`RecoveryWitnesses.EmptyPrimaryKeyDisagrees`). `CheckpointFold.ExactConditions` has the exact
  conditions. Take a key that is not empty and the last version that operates on it. The version is
  left to the tail when it is past the cut and the image does not list the key because of it. The log
  alone gives the committed list if and only if the version begins and ends with the same operation
  on the key; image and tail do if and only if that holds or the version is not left to the tail; the
  two agree if and only if that holds or the version is left to the tail. For the empty key the two
  agree if and only if the captured list does not hold it. Rows always agree.
- A hopping scan trusts the headers of the frames it crosses and the checksum of the last one. Once
  the file has grown by fewer zeroes than a frame header, the rescan falls back to the full walk. It
  then accepts the same log if and only if the crossed frames pass that walk too, or frames were left
  to read after the hop, and refuses the file otherwise (`WalTheorems.RescanIsIdempotent`; such
  files exist, `WalTheorems.ShortGrowthCanRefuse`).
- An insert right after an empty write of the same key is refused although the key is dead
  (`CommitChecks.EmptyWriteBlocksInsert`). That is the only case: a request is accepted if and only
  if its inserts find their keys dead and none follows an empty write (`CommitChecks.InsertsAccepted`).

## Model

| member | source | states |
|---|---|---|
| SiloTheorems.Serializability | src/stateless/commit.cpp:210-350 | In every run the committed requests, ordered by their serialization points, form a serial history of their protected reads, each once, and every key with no install pending shows what that order leaves |
| SiloTheorems.EqualTidSameVersion | src/stateless/commit.cpp:614-630 | Published versions of a key strictly increase along every run, across purge and re-creation, so equal versions read at any two moments carry equal contents |
| SiloTheorems.PurgeIsInvisible | src/index/reaper.cpp:80-181 | A purge detaches only an attached tombstone that still carries its delete's version, two epochs on, and changes no visible contents |
| SiloTheorems.AbortRestores | src/stateless/commit.cpp:227-238 | Undoing a lock restores exactly the pre-lock word and touches nothing else |
| SiloTheorems.WaitChainAscends | src/stateless/commit.cpp:210-216 | From the first to the last committer of any wait chain the slot waited for strictly increases |
| EngineTheorems.NoWaitCycle | src/stateless/commit.cpp:256-274 | In no reachable state do committers, readers, the reaper, the clock, the flusher and a policy switch wait for each other in a circle, over row locks, epoch closure and durability at once |
| EngineProgress.SomebodyGoesOn | src/stateless/commit.cpp:364-373 | From any party that waits, following the waits ends at one that waits for nobody and can take a step without anybody giving up, or at the flusher of a failed log |
| Engine.SiloRun | src/stateless/commit.cpp:36-282 | The commit part of every run of the engine is a run of the commit machine, so its theorems hold there |
| Engine.StepKeepsCoupled | src/stateless/commit.cpp:591-678 | Every step keeps the two machines in agreement: a transaction past its point is online in its commit epoch until its record is enqueued, and every commit that wrote has exactly its record |
| EngineTheorems.CrashLeavesSerialPrefix | src/recovery/impl/thread_local_logger.cpp:187-225 | Whenever the process stops and whatever leading frames of a group survive, the commits on the device are exactly those up to the last frame, all durable ones included; they are a prefix of the serial order, replaying them gives what running it gives, and each present read was of a starting row or an earlier one of them |
| EngineLives.RecoveryIsSerial | src/database_impl.h:995-1063 | Through any number of crashes and restarts, folding all that was ever recorded gives of every row exactly what the surviving commits of all lives leave when run one at a time, in point order and life after life |
| EngineLives.NoLostRead | src/database_impl.h:995-1063 | Whatever a surviving transaction of any life found present was published by a surviving transaction: an earlier one of its life, or one of an earlier life |
| EngineLives.RestartIsPossible | src/database_impl.h:995-1063 | From every crash a next life can start, with exactly the live rows of the fold under their versions and an epoch above all of them |
| SiloTheorems.FinishedHoldsNothing | src/stateless/commit.cpp:666-678 | A transaction awaiting durability holds no row lock |
| SiloLocks.StepKeepsLockInv | src/stateless/commit.cpp:210-274 | Every step keeps the lock discipline: a word is locked exactly while it has an owner, a committer holds the slots of its ascending order up to where it got, and those past the attachment check stay attached |
| SiloHistory.StepKeepsHistInv | src/stateless/commit.cpp:541-640 | Every step keeps the version discipline: an attached slot shows its key's last version unless it is being installed, an install shows the effect of the entries done so far, and the commit epoch covers every version replaced |
| SiloReads.ReadEndIsGenuine | src/concurrency_control/stable_read.hpp:57-83 | A byte-by-byte copy whose version word did not move is exactly one published version |
| SiloReads.StepKeepsReadInv | src/concurrency_control/stable_read.hpp:57-83 | Every step keeps every unfinished copy a prefix of the sampled version or its sample outdated, and every read in evidence a published version |
| SiloSerial.ValidateSerialRead | src/stateless/commit.cpp:308-350 | A protected read that passes validation equals the serial value at the validator's position |
| SiloSerial.RunKeepsInv | src/stateless/commit.cpp:210-650 | The serialization invariant holds in every state of every run |
| SiloRecovery.RecoveredStateIsSerialPrefix | src/stateless/commit.cpp:276-282 | For every closed frontier, replaying the versions up to it equals running the commits of those epochs, which are a prefix of the serial order, and whatever such a commit found present is a starting row or was written by a commit of those epochs that comes before it |
| SiloAnomaly.AbsentReadsAdmitWriteSkew | src/stateless/commit.cpp:321-327 | For any two distinct keys and non-empty values there is a run in which two crossed absent reads both commit and neither order explains both |
| SiloUnprotected.UnprotectedReadCanMiss | src/stateless/commit.cpp:321-327 | For every database, every request whose reads match it and every absent read of a key the request does not write, there is a run in which the request commits and the key has another value at its place in the serial order |
| EpochSpec.NextKeepsBounded | src/util/epoch_framework.hpp:97-109 | A thread online at e keeps the global epoch at e or e + 1, and the epoch never decreases |
| EpochSpec.TwoEpochsDrain | src/database_impl.h:425-433 | Two epochs past a cut nobody is online at or below it |
| EpochFramework.StepKeepsInv | src/util/epoch_framework.hpp:241-293 | Every step keeps the slots, the scan and the joins consistent, so a scan that saw no older slot may advance |
| EpochFramework.StepRefines | src/util/epoch_framework.hpp:110-127 | Each step of the join loop and of the writer's scan is a step of the abstract clock or none |
| EpochFramework.RunRefines | src/util/epoch_framework.hpp:229-293 | In every run every step refines the clock and joined threads bound the epoch |
| EpochFramework.SingleStoreFallsBehind | src/util/epoch_framework.hpp:115-126 | Without the reload a thread can be left two epochs behind |
| Durability.AcknowledgedIsForever | src/recovery/logger.cpp:388-419 | A Sync-acknowledged commit is on the device in every later state, through any crashes and restarts |
| Durability.RestartIsExact | src/database_impl.h:995-1063 | A restart recovers exactly the commits at or below the scanned frontier, all acknowledged ones among them, and resumes above every one |
| Durability.CrashIsExact | src/recovery/impl/thread_local_logger.cpp:187-225 | Whatever leading frames of a group survive, the device then holds exactly the commits up to its last frame |
| Durability.SwitchedIsDurable | src/database_impl.h:403-443 | When a switch to Sync returns true, every commit that captured Async until then is on the device, then and later |
| Durability.FailStopsNeverFire | src/recovery/impl/thread_local_logger.cpp:194-213 | No record arrives for a durable epoch, no group is refused, the durable epoch never moves back |
| Durability.DurableEpochIsClosed | src/database_impl.h:459-467 | All commits up to the durable epoch are on the device and nobody online can add one |
| Durability.StepKeepsInv | src/recovery/impl/thread_local_logger.cpp:136-225 | Every step keeps every commit accounted for, on the device, in the carry or in a buffer, and each place bounded by epoch |
| DurabilityProgress.AcknowledgementIsReachable | src/recovery/logger.cpp:421-450 | From every reachable state with nobody online and no log failure, steps without crash or failure lead to the acknowledgement of any waiting commit |
| WalFormat.EncodedIsRead | src/recovery/wal.cpp:839-852 | Wherever the bytes of an encoded frame stand, epoch, payload, end and checksum are read back |
| WalFormat.ReadIsEncoded | src/recovery/wal.cpp:649-693 | A frame that reads and satisfies its checksum is the encoding of what was read |
| WalTheorems.AppendedFramesSurvive | src/recovery/wal.cpp:557-799 | Whatever follows an appended log, the walk passes it, whatever the verdict; an accepting scan returns its records first, ends no earlier, reports no lower frontier, and the repaired file begins with it |
| WalTheorems.BytesBeforeEndKeepLogs | src/recovery/wal.cpp:639-740 | A file changed only from the end of the walk on still begins with every log it began with |
| WalTheorems.AppendedLogIsExact | src/recovery/wal.cpp:639-740 | With zeroes after it, an appended log is returned exactly, for every minimum epoch |
| WalTheorems.HopAgreesWithFullScan | src/recovery/wal.cpp:576-628 | On an intact log the hopping scan has the full scan's end and frontier and exactly its records above the minimum epoch |
| WalTheorems.AcceptedIsLog | src/recovery/wal.cpp:695-739 | What a full scan accepts is a well-formed log and is returned as that log |
| WalTheorems.RescanIsIdempotent | src/recovery/wal.cpp:748-799 | Rescanning the file an accepting scan leaves, grown by zeroes, accepts the same log with nothing truncated if and only if it grew by nothing or at least a header, or the hop left frames to read, or the crossed frames pass the full walk; otherwise it is refused |
| WalTheorems.ShortGrowthCanRefuse | src/recovery/wal.cpp:508-509 | Growth by less than a header makes the hop fail and can turn acceptance into refusal |
| WalTheorems.TornGroupIsRepaired | src/recovery/wal.cpp:748-795 | A group write interrupted inside a frame is scanned back as exactly its whole frames, and refused exactly when an intact frame survives beyond |
| WalTheorems.TornWriteIsRepaired | src/recovery/wal.cpp:748-795 | Wherever the write of a group stops, the file is scanned back as the log and leading frames of the group, for every minimum epoch, or refused exactly when an intact frame survives beyond; the one exception is a torn frame whose remains satisfy a checksum without being that frame |
| Wal.GroupIsGood | src/recovery/wal.cpp:818-853 | Acceptable ascending buckets extend a good log to a good log, with exactly the group's bytes and last epoch |
| Wal.Wal.HeaderIsTornPrefix | src/recovery/wal.cpp:61-76 | True exactly for a strict prefix of the constants followed by zeroes |
| Wal.Wal.ProbeFrameAt | src/recovery/wal.cpp:330-369 | A decided probe is right about an intact frame at the offset |
| Wal.Wal.SearchForFrameAfter | src/recovery/wal.cpp:378-402 | Despite chunks and overlap, a verdict on whether an intact frame begins anywhere later is right; undecided only with a magic number in the tail or a tail beyond 256 MiB |
| Wal.Wal.FindLastNonZero | src/recovery/wal.cpp:406-424 | The last non-zero byte of the range, or one before it |
| Wal.Wal.HopCoveredFrames | src/recovery/wal.cpp:489-555 | Computes the header hop of the specification, or reports a failed read |
| Wal.Wal.FindStart | src/recovery/wal.cpp:576-628 | The walk starts where the specification begins it: past a hop whose guard holds, else at the start |
| Wal.Wal.WalkFrom | src/recovery/wal.cpp:639-740 | Computes the frame walk of the specification, or reports a failed read |
| Wal.Wal.WriteZeroesAndSync | src/recovery/wal.cpp:291-323 | Zeroes exactly the range; a failure may stop anywhere but touches nothing before it |
| Wal.Wal.EnsureCapacityFor | src/recovery/wal.cpp:426-465 | Only appends zeroes; on success the group fits, a grown file is a whole number of capacity units and no larger than the next one needed |
| Wal.Wal.ScanAndRepair | src/recovery/wal.cpp:557-799 | Ok means the specification accepts, with its records, frontier and end, and zeroes from the end on; corrupt means it refuses or the search ran out of budget, and leaves the file as it was; whatever the outcome, I/O errors included, every log the file began with is still there |
| Wal.Wal.RepairTail | src/recovery/wal.cpp:748-795 | Erases the tail only where the specification accepts with truncation, and never a byte before it |
| Wal.Wal.AppendGroup | src/recovery/wal.cpp:801-902 | Refuses exactly the groups with an unacceptable bucket, changing nothing; else extends every good log the file holds to a good log with the group's frames; a failed write leaves a prefix of the group over zeroes, from which a scan returns the log and leading frames of the group |
| Wal.Wal.EncodeGroup | src/recovery/wal.cpp:818-853 | Encodes exactly the due buckets if all are acceptable, with the epoch of the last |
| RecoveryFold.NewestSpec | src/recovery/logger.cpp:168-180 | The fold finds an event exactly when there is one about the subject, none is newer than it, and of equals it is the first |
| RecoveryFold.NewestIs | src/recovery/logger.cpp:169-194 | With one strictly newest event about a subject the order of the log does not matter |
| RecoveryFold.FoldKeyValue | src/recovery/logger.cpp:135-195 | One logged entry extends the accumulated newest events by exactly its own |
| RecoveryFold.Regroup | src/recovery/logger.cpp:199-229 | Lists hold exactly the primary keys whose surviving operation is an addition, under the newest of their versions |
| RecoveryFold.BuildRecoverySet | src/recovery/logger.cpp:62-231 | One item per row with its newest version; a list holds exactly the primary keys whose newest operation is an addition, under the newest of their versions |
| CheckpointFold.ImageAndTailRebuildTheLog | src/recovery/epoch_scan_checkpoint.cpp:167-241 | For any history and fuzzy capture, image plus tail folds to the rows of the whole log, bytes and versions; about a posting the log, and image plus tail, give the committed list, and agree with each other, each exactly under its condition |
| CheckpointFold.ExactConditions | src/recovery/logger.cpp:142-158 | The three conditions, on the operations of the versions alone: when the log, when image and tail, give the committed list at a primary key, and when the two agree |
| CheckpointFold.LogRecovers | src/recovery/logger.cpp:142-194 | The fold of any log of a history lists a posting as the first operation of the last version on it says, and never the empty key |
| CheckpointFold.ImageRecovers | src/recovery/logger.cpp:273-311 | With image and tail the captured list decides, unless the last version on the posting is past the cut and either not captured or captured without listing the key |
| LoggedHistories.Enqueue | src/recovery/impl/thread_local_logger.cpp:50-92 | One entry per row and per operation of the write set, in order; no record for a write set without any |
| LoggedHistories.PieceIs | src/stateless/commit.cpp:591-640 | The write set a commit logs, rows as often as written and operations of all lists interleaved, says about a row or posting what the published version says, first operation first, and nothing about anything else |
| LoggedHistories.CommitsAreLog | src/recovery/impl/thread_local_logger.cpp:50-92 | Whatever the order in which commits enqueue their records, these are a log of the committed history |
| CapturedImages.CapturedIsImage | src/recovery/epoch_scan_checkpoint.cpp:167-241 | What the scan writes, table by table and in any order, blank and empty items skipped, is the image of what it captured |
| WrittenRecovery.WrittenRecoveryAgrees | src/recovery/logger.cpp:255-319 | For every run of the capture, every order of the enqueued commits and every order of the scanned items, rows from image and tail equal rows from the log, and postings agree under the exact conditions |
| RecoveryWitnesses.RemoveThenAddIsLost | src/recovery/logger.cpp:142-194 | A request that removes and adds a listed key is accepted and leaves it listed; recovery from its log record drops it and an image keeps it |
| RecoveryWitnesses.EmptyPrimaryKeyDisagrees | src/recovery/logger.cpp:142-158 | The empty primary key is dropped from a logged operation and kept from a captured list |
| Checkpoint.PublishedImageIsFuzzy | src/recovery/epoch_scan_checkpoint.cpp:311-359 | In every interleaving of capture, commits and flushes, everything in a published image is on the device, and the image is fuzzy at its cut for every frontier that covers the device |
| Checkpoint.CheckpointedRecoveryAgrees | src/recovery/logger.cpp:255-319 | For every run of the capture, every later crash and every subject: the same rows from image and tail as from the log, and postings under the same exact conditions |
| CheckpointRestart.ImageOutlivesRestartIffLogReachedCut | src/database_impl.h:1005-1062 | For a history with a row, after a restart the image agrees with every continuation of the log if and only if the larger of 1 and the frontier reaches the cut |
| CheckpointRestart.CommitBelowCutIsLost | src/recovery/logger.cpp:273-311 | If not, one more commit of any row in the resumed epoch makes image and tail disagree with the log |
| CheckpointRestart.FuzzyAgrees | src/recovery/logger.cpp:273-319 | Within one incarnation a fuzzy image agrees with the log about every row and every posting no version of which is on the empty key or begins and ends differently |
| CheckpointRestart.IdleEpochsOutrunTheLog | src/recovery/impl/thread_local_logger.cpp:175-181 | For every cut of at least 2 a fresh database, ticking from epoch 1, has a run that is durable through the cut and whose frames stay below it |
| ReadView.ViewReadsTheCut | src/database_impl.h:518-564 | In every run every slot an active, unpoisoned view resolved shows its value after all commits up to the cut and none later |
| ReadView.OldestIsValue | include/lineairdb/pax_store.h:331-388 | The oldest before-image past the cut is the slot's value at the cut |
| ReadView.StripIsCut | include/lineairdb/pax_store.h:362-370 | With nothing past the cut begun, nobody is installing and the strip is the cut's row |
| ReadView.CountMoved | src/pax/version_store.cpp:47-79 | Before an install past the cut touches a cell, the capture count has moved for every read that missed its entry |
| ReadView.StepKeepsInv | src/types/data_buffer.hpp:224-287 | Every step keeps the entries in install order, each with its install's epoch and before-image, and complete past every active cut unless poisoned |
| PaxCodec.IntTextExact | src/pax/pax_store.cpp:27-31 | An accepted integer text is rendered back exactly if and only if it is canonical |
| PaxCodec.IntRoundTrip | src/pax/pax_store.cpp:127-131 | Every integer in range is parsed back from its text |
| PaxCodec.DateTextExact | src/pax/pax_store.cpp:34-48 | Every date-shaped text comes back as it was and fits 32 bits |
| PaxCodec.DecTextExact | src/pax/pax_store.cpp:53-90 | An accepted decimal text is rendered back exactly if and only if it is canonical and its number fits 64 bits |
| PaxCodec.ParseDecExact | src/pax/pax_store.cpp:53-90 | A decimal is accepted, and read, exactly as promised if and only if its scaled magnitude is below 2^127 or what 128 bits leave of its number is out of range |
| PaxCodec.OverflowIsAccepted | src/pax/pax_store.cpp:53-90 | At every scale, every number a non-zero multiple of 2^128 away from one in range is accepted as that one |
| PaxCodec.DecRoundTrip | src/pax/pax_store.cpp:165-192 | Every 64-bit scaled number is parsed back from its text |
| PaxCodec.ParseDecScaled | src/pax/pax_store.cpp:53-90 | The accumulator loops compute the 128-bit wrapped, then range-checked value of the grammar; some operation overflows exactly when the scaled magnitude reaches 2^127 |
| PaxCodec.FormatDec | src/pax/pax_store.cpp:165-192 | The digit loops produce the canonical decimal text |
| PaxCodec.BinaryRoundTrip | src/pax/pax_store.cpp:133-151 | The little-endian cell returns every number in range |
| PaxCodec.TypedTextExact | src/pax/pax_store.cpp:94-196 | An accepted typed value is in range, and through the binary cell its text comes back exactly if and only if it is canonical and did not overflow |
| PaxRow.RowRoundTrip | src/pax/pax_store.cpp:376-388 | Encoded rows parse back to their fields |
| PaxRow.RowExact | src/pax/pax_store.cpp:208-254 | A parsed row re-encodes to itself if and only if its length prefixes are minimal and empty fields are 0xFF |
| PaxRow.ParseRow | src/pax/pax_store.cpp:230-254 | The cursor loop parses the fields, and refuses malformed rows and too many fields |
| PaxGroup.CellsApart | src/pax/pax_store.cpp:257-272 | Distinct cells never overlap in the arena |
| PaxGroup.ScatterGatherExact | src/pax/pax_store.cpp:274-372 | A row the group takes renders to itself byte for byte if and only if it is canonical |
| PaxGroup.RowFitsAsPromised | src/pax/pax_store.cpp:274-300 | A row is taken if and only if every field fits as promised, or all do except for decimals past 2^127 of which 128 bits leave a number in range; never both |
| PaxGroup.StoredRowComesBack | src/pax/pax_store.cpp:329-372 | A taken row gathered with its own size comes back if and only if it is canonical, also when its rendering would be longer |
| PaxGroup.PaxGroup.CheckRow | src/pax/pax_store.cpp:274-300 | Accepts exactly the rows whose fields all pass the checks of their cells, and returns their fields; nothing is written before |
| PaxGroup.PaxGroup.ScatterRow | src/pax/pax_store.cpp:274-320 | Accepts exactly the promised rows and those with an overflowing decimal; a refused row changes nothing; after an accepted one a strip reader sees its rendering in the slot and every other row as before, and no other cell changed |
| PaxGroup.PaxGroup.GatherRow | src/pax/pax_store.cpp:329-372 | The encoded row of the slot if it fits the expected size, else the encoding of exactly the longest run of leading fields that does |
| PaxGroup.PaxGroup.ScatterThenGather | src/pax/pax_store.cpp:274-372 | In place: a row written and gathered with its own size is itself if and only if it is canonical; a refused one leaves what readers see |
| PaxGroup.PaxGroup.GatherRowMasked | src/pax/pax_store.cpp:421-436 | The full row with unselected fields emptied |
| PaxGroup.PaxGroup.RetireSlot | src/pax/pax_store.cpp:322-327 | Strip readers lose exactly the row of the slot, and a point reader still gathers from every slot what it did |
| PackedKeys.VarintRoundTrip | src/types/packed_primary_keys.hpp:232-263 | A varint is read back whatever follows it |
| PackedKeys.DecodeRecord | src/types/packed_primary_keys.hpp:248-263 | Finds the key and the end of the record at a position |
| PackedKeys.Find | src/types/packed_primary_keys.hpp:72-85 | The byte offset of the first record not before a key, and whether it is that key |
| PackedKeys.InsertedIsUnion | src/types/packed_primary_keys.hpp:67-108 | Insertion is set union and keeps strict order |
| PackedKeys.ErasedIsDifference | src/types/packed_primary_keys.hpp:118-158 | Erasure is set difference and keeps strict order |
| PackedKeys.Insert | src/types/packed_primary_keys.hpp:67-108 | On bytes: count, length and records of the union; refused exactly when it outgrows 32 bits |
| PackedKeys.Erase | src/types/packed_primary_keys.hpp:118-158 | On bytes: count, length and records of the difference |
| PackedKeys.FromSortedDeduped | src/types/packed_primary_keys.hpp:39-55 | Packs exactly the given keys; refused exactly when they outgrow 32 bits |
| IndexDeltas.RecordSecondaryIndexDelta | src/types/snapshot.hpp:80-89 | Overwrites the entry of the key or appends one |
| IndexDeltas.SummaryReplays | src/types/snapshot.hpp:80-89 | Applying the last operation per key equals replaying the full history, on any list |
| IndexDeltas.ApplySecondaryIndexDeltas | src/transaction_impl.cpp:106-125 | Succeeds exactly when no addition outgrows 32 bits; the packed list then holds what replaying the operations on its set gives |
| Overlay.SetIndex.FindInSet | src/transaction_impl.cpp:280-322 | The incremental hash lookup returns the linear scan's first match, whatever the hash |
| Overlay.MergeKeys | src/transaction_impl.cpp:768-784 | The merged keys are strictly ascending and exactly the union |
| Overlay.HasOwnBaseRowWriteInRange | src/transaction_impl.cpp:59-73 | True exactly when some own write concerns the range |
| Overlay.ScanPrimaryIndexWithEarlyStop | src/transaction_impl.cpp:672-718 | The fast path visits what the reference visits, in either direction |
| Overlay.Scan | src/transaction_impl.cpp:720-860 | Visits the live ones of the unique ascending list of committed keys in range and own writes, each with the overlaid value, until stopped, by either path |
| Overlay.ScanReverse | src/transaction_impl.cpp:862-972 | Visits the mirror image of what the forward scan visits without a stop, until stopped |
| Overlay.SortedUnique | src/transaction_impl.cpp:768-784 | The ascending list of candidates is unique, so both paths agree |
| RangeReplay.RangeScan | src/stateless/read.cpp:46-93 | Returns the live rows in order, up to the limit |
| RangeReplay.ReplayPrimary | src/stateless/commit.cpp:375-408 | Accepts if and only if the full scan returns the evidence and nothing it visits is locked by another |
| RangeReplay.SecondaryRangeScan | src/stateless/read.cpp:164-227 | Returns the live pairs in order, up to the limit |
| RangeReplay.ReplaySecondary | src/stateless/commit.cpp:410-486 | Accepts if and only if the full scan returns both evidence lists and nothing it visits is locked by another |
| IndexStats.NewOrPrevious | src/database_impl.h:728-737 | In key order a prefix that differs from the previous one is new |
| IndexStats.StrideBound | src/database_impl.h:933-963 | With the chosen stride there are fewer than twice as many boundaries as buckets |
| IndexStats.ComputeIndexNdvInt | src/database_impl.h:679-742 | Counts exactly the distinct prefixes at every depth; fails exactly on no parts or a malformed key |
| IndexStats.ComputeIndexHistogram | src/database_impl.h:921-963 | Each boundary is the leading part of a key with the rows up to that key; totals strictly increase to the row count, at most twice the buckets, none deeper than stride - 1 plus the heaviest key; fails exactly on no buckets, no rows or a malformed key |
| CommitChecks.InsertsAccepted | src/stateless/commit.cpp:144-165 | Resolve and recheck accept exactly the requests whose inserts find their key dead in order and none of which follows an empty write |
| SiloInserts.LockedRowIsSerial | src/stateless/commit.cpp:499-507 | Between its serialization point and its decision a request finds every key it writes as the serial order leaves it at its place |
| SiloInserts.FreeIsSerial | src/stateless/commit.cpp:499-507 | In every reachable state, the rows a request holds locked let its inserts pass exactly when, run serially at its place, every insert finds its key dead |
| SiloInserts.CheckInserts | src/stateless/commit.cpp:144-165 | A request passes both insert checks if and only if that holds and no insert follows an empty write |
| CommitChecks.EmptyWriteBlocksInsert | src/stateless/commit.cpp:149-158 | An insert into a dead key after an empty write is a duplicate |
| CommitChecks.ResolveInserts | src/stateless/commit.cpp:144-159 | Refuses exactly the duplicates within the request and leaves exactly the first touches to the committed row |
| CommitChecks.RecheckInserts | src/stateless/commit.cpp:499-507 | Accepts exactly when no insert left to the committed row finds one |
| CommitChecks.CheckRepeatedAdds | src/stateless/commit.cpp:182-189 | Accepts exactly when the request adds no UNIQUE key twice |
| CommitChecks.RecheckUnique | src/stateless/commit.cpp:509-539 | Accepts exactly when every UNIQUE addition finds its list empty in order |
| CommitChecks.CommitLists | src/stateless/commit.cpp:509-576 | Accepts exactly when no UNIQUE key is added twice and every such addition finds its list empty; an abort changes no list, a commit installs all operations, and UNIQUE lists keep to one key |
| UniqueCommits.UniqueInEveryState | src/stateless/commit.cpp:509-576 | In every state of every interleaving of requests and purges, between two installs of one request included, at most one primary key is found under every UNIQUE key |
| UniqueCommits.InstallsWhatWasChecked | src/stateless/commit.cpp:541-576 | A request that has installed everything shows in each of its lists what its operations, in order, make of the lists the recheck found, each UNIQUE addition on an empty one |
| UniqueCommits.StepKeepsInv | src/index/reaper.cpp:80-181 | Every step of a request or of the reaper keeps locks, attachment and the checked lists consistent, so nothing the recheck saw changes before the install |

## Left out

- SiloTheorems.Serializability: covers point reads and row writes; range reads and secondary-index operations of a request are not steps of that machine, and any abort they cause is a step that may happen at any time. Range replay compares membership by value, which the serial argument does not extend to.
- EngineProgress.SomebodyGoesOn: deadlock freedom; that a spinning thread eventually gets a free lock needs a fair scheduler, which is not modelled.
- Durability.RestartIsExact: the device holds whole frames; the bytes of a torn group are the subject of TornGroupIsRepaired.
- WalTheorems.TornWriteIsRepaired: leaves open what a scan makes of a torn frame whose remains satisfy a checksum by accident.
- WalTheorems.TornGroupIsRepaired: assumes that the torn frame, zero-padded, does not satisfy its own checksum, which an abstract checksum cannot promise.
- EngineLives.RecoveryIsSerial: rows; posting lists recover under the conditions of CheckpointFold.ExactConditions. Without an image; WrittenRecovery has recovery from image and log.
- LoggedHistories.CommitsAreLog: a secondary index has a name; the logger tells rows from operations by it.
- Checkpoint.CheckpointedRecoveryAgrees: one incarnation; CheckpointRestart covers later ones. A flush is one step there, its stages being those of Durability. That a row copy is one version is taken from the stable-read theorem.
- CheckpointRestart.ImageOutlivesRestartIffLogReachedCut: takes the image as honoured; the comparison with the log frontier stored in it guards against a different log and is not modelled.
- ReadView.ViewReadsTheCut: slots that stay in the strips; rows that fell back to heap storage switch strip scans off and are not modelled. An install outside any commit epoch appears only as the poisoning it causes.
- PaxCodec.ParseDecScaled: 128-bit signed overflow, undefined in C++, wraps in the model.
- UniqueCommits.UniqueInEveryState: lists are sets of primary keys and the base rows of a request are not part of that machine; any other reason to abort is a step that may happen before the install.
- IndexStats.ComputeIndexHistogram: over a quiescent index; the two passes see the same keys.
- The file is a byte sequence. Short reads and writes, locking, directory entries and fault injection are folded into reads and writes that may fail at any point.
- Epochs and version counters are unbounded; the high-water fail-stop and the counter wrap are not modelled.
- Order of rows inside a frame and of primary keys inside a recovered list: sets stand for them; the packed list module has the order.
- Frame and byte counters of a scan, capacity extension counts, log messages and flush tracing.
- The image file's own header and checksum; loading it either yields the captured records or no image.
- Wall-clock timeouts: a timeout is a step that gives up at any time.
- SiloNWR, two-phase locking, the CPR checkpoint, thread pool, callbacks, Masstree internals and NUMA placement are not part of this model.
