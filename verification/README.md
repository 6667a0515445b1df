# Verified model of the XTA storage, scheduling and topology core

This project models seven parts of XTA whose correctness rests on state that is
updated step by step, on interleavings, or on two algorithms that must agree, and
proves what those parts are for. `dafny verify dfyconfig.toml` checks all of it.

Objects that the program updates in place are classes (`ArchiveFile`,
`StageCoordinator`, `BlockWriter`, `ConfidencePublicationQueue`,
`HostPublicationPool`, `RetiringConfidenceCapture`); kernels that overwrite an array
are methods on arrays. Each is proved against a specification, and the theorems are
lemmas about that specification: over every run, every interleaving or every input.

## What is modelled

**Artifact archive** (`Archive*.dfy`). The TAR file is a sequence of typed 512-byte
blocks. An append zeroes the footer at the committed end, writes its members, its
COMMIT record and a new footer over it one block at a time, and on an exception
rewrites two zero blocks without truncating; any of these writes can be the last one.
Whatever mixture of leftovers of failed and torn appends lies behind the committed
end, a scan fails or returns exactly the fold of the committed transactions
(`ArchiveSafety.CrashSafety`). `ArchiveTail` and `ArchiveCrash` show why no mixture of
leftovers is ever read as a transaction. Three families of inputs break the promise. An
extended header that carries only a size names no transaction, so that a torn retry
can bring a rolled-back transaction back (`ArchiveTorn.UnsignedHeaderRevives`);
`ArchiveExact.CrashSafeWhenSigned` gives the exact condition for a whole workload. An
append that stops behind an extended header over the metadata budget locks the archive
(`ArchiveTorn.LocksForGood`); `ArchiveLengths` computes the byte lengths of both encodings,
from which it follows that such an append never commits. And an append that stops over
payload left by a rolled-back one locks it too, because the scanner lands on that payload
(`ArchiveStopped.PayloadLocksForGood`). `ArchiveLanding` says where the scanner lands, and
`ArchiveStopped.StoppedAppendScans` and `ArchiveStopped.EveryEndingScans` say, over leftovers
without headers, exactly which stops and which appends leave an archive that can be scanned.
`ArchiveAdmission` says on names alone which appends are refused and which are published, and
what every name then reads back; `ArchiveEncodings` compares the lengths with the text.

**GPU stage coordinator** (`Gpu*.dfy`). Every section under the coordinator's lock is
a function of its state (`GpuStages`) and a method of a class (`GpuCoordinator.dfy`).
`GpuClaims` lets the steps of any number of claiming threads, the scheduler and the
lease holders interleave freely, including the moments outside the lock, and
`GpuRuns` states what holds in every reachable state. A failed step anywhere in a
claim, reconfiguration and reset are steps like any other. `GpuReconfigure` says what a
reconfiguration amid running dispatches costs, and when it costs nothing. `GpuRules` and
`GpuTurns` tell the coordinator's decisions on devices, flags, demands and times, and
`GpuAdmission` states over all runs that exactly the stages they admit get a device, and
`GpuReservations` that no device stays reserved behind a claim that has ended;
`GpuDemands` follows the demands of the turn queue through every run.

**Slice topology** (`Grid`, `Planes`, `HoleFill`, `HoleFiller`, `ComponentFilter`,
`SliceCleanup`, `TileGate`, `TileGateInPlace`). Components are classes of grid
reachability, with four neighbours for background and eight for foreground;
distances are exact squared Euclidean distances. The in-place code is proved against
these definitions for any labelling that has the documented meaning. `Neighbours` says, by
rows and columns and without paths or labels, what is filled, cleaned and accepted.

**Sparse transpose** (`Sparse*.dfy`). The bounds pass and the scatter pass over
bit-packed crops, slab by slab, on arrays of bytes, equal the dense axis permutation;
`SparseBits` says as numbers what the bytes are that are read and written.

**Sparse confidence store** (`Score*.dfy`, `CapturePlan`). Cutting planes and crops into
grid cells, the fused masked capture, the batched writer, the index reader, the bounded
decoder, the joining of stores by rewriting their indices, and the reassembly of crops.
The round trip goes from planes through a store back to planes
(`ScoreReader.PlaneRoundTrip`), and a join of leases is a lease again
(`ScoreRejoin.JoinIsLease`). `ScoreLeaseRules` writes out what a join demands, and
`CaptureFrames` shows that no frame can outgrow what its capture is charged.

**Resampling arithmetic** (`MaxPool`, `MaxRestore`, `AxisRanges`, `HostRows`). Separable max
pooling through its two shared arrays, the direct restoration by masked offsets, their
equality, integer footprints, and the rows that the host computes in floating point.
`PoolFootprints` says by overlapping extents, without divisions, what both forms leave.

**Queues and windows** (`PublicationSlots`, `PublicationQueue`, `HostPool`,
`CaptureRetirement`, `OrderedPlanes`). Reservations, releases and callbacks are events in
arbitrary order; the classes carry out the sections under the locks. The window of ordered
planes tracks every operation from its submission to its end, failures, cancellation and
early closing included; it never gets stuck and can always publish every plane
(`PlanesProgress`). `PublicationPaths` and `PoolPaths` follow an attempt from grant to return,
`RetirementPaths` a captured source from its submission to its retirement.

## Assumptions

- A digest stands for the bytes that it was computed over, and the metadata encodings for
  the records they encode. Compression is any function that writes something and whose
  output inflates to the whole input and nothing more; where the size of an encoded frame
  matters, its length is within zlib's bound for its input.
- Member names are strings of Unicode scalar values, sizes are below 2^64, and the lengths
  of extended headers and commit records are those of Python's `tarfile` and `json`.
- A quotient of doubles is off by at most one part in 2^53 and exact when it is a multiple
  of one half; products of integers below 2^53 are exact.
- A payload block never parses as a header. Blocks of an append reach the file in
  order and each wholly or not at all; an append can stop or raise at any block.
- A transaction id is fresh: no earlier attempt used it.
- An extended header that is cut by the end of the file reads as no header, and a zero
  block ends the records. One whose blocks come from several writers, in any mixture,
  reads as torn.
- Connected-component labels, the bounding box of the foreground and the distance
  transform come from OpenCV; they are parameters with their documented meaning. A
  squared distance is compared with an integer threshold, and every cell of a plane
  without background is far from background.
- Time is a parameter in milliseconds; environment switches are fixed for a run.
- `submit` may raise after it has enqueued its job, for lack of a thread or by an
  interrupt, whether or not all threads have been started.
- A publisher's completion callback fires when its wrapper has returned, or when the
  wrapper will never run.
- A score crop is a function that is zero outside its box.

## Where the code does less than its comments promise

- Recovery of the archive is exact only for workloads whose first header names its
  transaction (`ArchiveExact.CrashSafeWhenSigned`). A member whose name needs an extended header
  over 64 MiB is always refused at the COMMIT and rolled back (`ArchiveFormat.HeadersInBudget`), but
  an append that stops once that header has reached the file, before any zero block is back, locks
  the archive for good (`ArchiveTorn.LocksForGood`).
- A rolled-back append leaves its payload in the file. An append that is torn over it stops where the
  scanner lands on old payload, which locks the archive for good although no header is stale and none
  is over the budget (`ArchiveStopped.PayloadLocksForGood`). Over leftovers without headers, an append
  leaves a readable archive however it ends if and only if none of its headers is over the budget,
  every block where the scanner can land is zero or past the end of the file, and, when its record is
  within the budget, the file ends before that record would (`ArchiveStopped.EveryEndingScans`).
- `configure_workers` clears the in-flight counts of dispatches that are still running
  (`GpuRuns.ReconfigureForgetsDispatches`). The counts stay right, and running dispatches keep their
  devices, exactly when none is running (`GpuReconfigure.ExclusiveExactlyWhenSettled`).
- `submit` of an executor may enqueue a job and then raise, as a comment in
  `XTA/confidence_orchestration.py:122-125` notes. When another thread then runs the job before the
  caller cleans up, the publication queue gets the slot back twice and, asked again, admits more
  than its limit (`PublicationSlots.SplitSubmissionOveradmits`). Its accounts are right exactly while
  no such attempt is overdrawn (`PublicationSlots.SlotsAreConserved`).
- `_Reservation.release` tests and sets its flag without a lock. While no release is under way, its
  pool's accounts are right exactly when no two releases of a live reservation have overlapped
  (`HostPool.CreditsAreConserved`), and such releases let it grant twice its size
  (`HostPool.OverlapOveradmits`).
- The host computes source rows and frames in doubles. Once products leave the exact integers, at
  2^53, it can leave out a row that the device kernel reads (`HostRows.HostLosesRow`), and on axes of
  more than 2^27 frames it can round to the frame next to the nearest one (`HostRows.FrameRoundsAway`).
- The reader of a score store adds offsets in 64 bits. Beyond 2^32 records it can accept an index
  whose offsets have come round (`ScoreIndex.WrappedIsAccepted`), which shows exactly in the sum of
  the record lengths (`ScoreIndex.AcceptedIsValid`).

## Model

| member | source | states |
|---|---|---|
| ArchiveSafety.CrashSafety | XTA/artifact_archive.py:170-382 | After any run of appends, each committed, refused, rolled back or stopped at any block, a scan fails or returns exactly the fold of the committed transactions, and every committed entry reads back the bytes its writer handed over; appends over the metadata budget are part of the run |
| ArchiveExact.CrashSafeWhenSigned | XTA/artifact_archive.py:262-382 | A workload is crash safe over all its runs if and only if every member list in it that can commit at all, its record being within the budget, starts with a member whose extended header, if any, carries its name |
| ArchiveExact.UnsignedRunBreaks | XTA/artifact_archive.py:262-376 | The other direction of the equivalence: one unsigned first header in a member list whose record fits the budget yields a failed append and a torn retry whose scan is not the committed fold |
| ArchiveTorn.UnsignedHeaderRevives | XTA/artifact_archive.py:332-376 | The failing run, for every transaction that can commit and whose first extended header carries only a size: rolled back after its COMMIT, it is published whole when a retry stops after two blocks |
| ArchiveSafety.AppendKeeps | XTA/artifact_archive.py:296-382 | Every legal append, however it ends, keeps the invariant that the log is a prefix of the file and that what lies behind it is doomed leftovers |
| ArchiveSafety.CommittedPrefixStays | XTA/artifact_archive.py:332-376 | No append, whatever its fault, removes a committed transaction or changes one of its blocks |
| ArchiveSafety.CompletedAppendScans | XTA/artifact_archive.py:332-376 | An append that completes extends the log by its transaction, and a scan then returns the old entries updated by the new ones, whatever leftovers lie behind it |
| ArchiveSafety.RolledBackAppendScans | XTA/artifact_archive.py:361-376 | An exception after any number of blocks, or a record over the budget, leaves exactly the old index as soon as one zero block is back, whatever names the members have |
| ArchiveSafety.LentPrefixReadable | XTA/artifact_archive.py:385-401 | Whatever an append is writing behind the committed end, every committed payload lent to readers still reads back |
| ArchiveSafety.RunStaysFlat | XTA/artifact_archive.py:318-331 | Over whole runs no committed name is a directory of another |
| ArchiveSafety.PublishedNames | XTA/artifact_archive.py:222-236 | A transaction publishes the names of its members, all of them and no other |
| ArchiveRuns.ScanIsExact | XTA/artifact_archive.py:170-239 | In every state of the invariant a scan fails or is exact, and it cannot fail when a zero block stands at the committed end |
| ArchiveRuns.PartialKeeps | XTA/artifact_archive.py:332-366 | An attempt that stops after any number of blocks short of its commit record joins the leftovers and keeps the invariant |
| ArchiveRuns.RollbackKeeps | XTA/artifact_archive.py:370-376 | Zeroing one or two blocks after an attempt that wrote anything, its commit record included, keeps the invariant |
| ArchiveRuns.CommitKeeps | XTA/artifact_archive.py:332-366 | A whole commit record extends the log and leaves every older attempt committed over |
| ArchiveRuns.ZeroingKeeps | XTA/artifact_archive.py:333-340 | Zeroing the footer, even in part, keeps the invariant and stops the scanner there |
| ArchiveCrash.NeverAccepted | XTA/artifact_archive.py:205-236 | No commit record met behind the committed end, whole or mixed from several attempts, is ever accepted |
| ArchiveCrash.LeftoversPublishNothing | XTA/artifact_archive.py:170-239 | A scan that enters the leftovers ends with the entries it entered with, or fails |
| ArchiveLog.ScanThrough | XTA/artifact_archive.py:170-239 | Over one whole transaction the scanner lands behind it with exactly its entries published |
| ArchiveLog.ScanLog | XTA/artifact_archive.py:170-239 | Whatever follows the log, the scanner reaches its end holding its fold |
| ArchiveLog.ReadHeader | XTA/artifact_archive.py:262-293 | Reading back a member header, with or without an extended header, yields the real name and size |
| ArchiveLog.LogReadable | XTA/artifact_archive.py:222-236 | Every entry of the fold points at the bytes its writer handed over |
| ArchiveTorn.TornTailRecovers | XTA/artifact_archive.py:146-239 | A log followed by any cut of one transaction that no oversized header has reached scans as exactly the log |
| ArchiveLanding.TornAppendRecovers | XTA/artifact_archive.py:146-376 | Over any leftovers without headers, an append stopped at any block short of its commit scans as exactly the old index if no oversized header is among its blocks and the block where the scanner lands was zero or past the file, and fails otherwise |
| ArchiveStopped.StoppedAppendScans | XTA/artifact_archive.py:146-376 | In every state of the invariant whose leftovers hold no header, the exact result of an append that stopped at any block, by dying or by raising before a zero block is back, its commit included: the log if it recovers by what the file held before, else an error |
| ArchiveStopped.AnyLandingDecides | XTA/artifact_archive.py:146-376 | Over any leftovers, stale headers included, an append that stopped short of its commit and outside an extended header scans as the old index if and only if nothing complete and nothing broken follows the landing block |
| ArchiveStopped.EveryEndingScans | XTA/artifact_archive.py:262-376 | The condition a caller can check: over leftovers without headers every ending of an append leaves an archive that can be scanned if and only if it has no oversized header, each place where the scanner can land is zero or past the file, and the file ends before the end of a record within the budget |
| ArchiveStopped.CleanTailRecovers | XTA/artifact_archive.py:333-376 | With nothing behind the footer only an oversized header is in the way |
| ArchiveStopped.PayloadLocksForGood | XTA/artifact_archive.py:332-376 | The failing run without stale or oversized headers, for whole families of member sizes: a member rolled back behind its payload, then a smaller one torn over it, and no later append changes the file |
| ArchiveTorn.OversizedHeaderLocks | XTA/artifact_archive.py:146-203 | Once the first block of an oversized extended header, of any member, lies behind the log, every scan fails whatever follows |
| ArchiveTorn.LocksForGood | XTA/artifact_archive.py:146-376 | Over any leftovers an append that dies, or fails before a zero block is back, once an oversized header has reached the file locks the archive for good: no later append changes it |
| ArchiveLengths.RowOutgrowsHeader | XTA/artifact_archive.py:262-362 | By the byte lengths of the two encodings, a member whose extended header is over the metadata budget has a row in the COMMIT record that is over it too |
| ArchiveEncodings.RecordIsItsText | XTA/artifact_archive.py:350-358 | The lengths of a row and of the record around the rows are those of their text: keys in order, no blanks, two digests and the identifier |
| ArchiveEncodings.LineCountsItself | XTA/artifact_archive.py:262-293 | The length of a line of an extended header counts the digits of that length too |
| ArchiveEncodings.CharacterTakes | XTA/artifact_archive.py:262-293 | A character takes the fewest bytes whose bits hold its code point |
| ArchiveEncodings.CharacterIsWritten | XTA/artifact_archive.py:70-71 | A character takes in a record what its escape takes: itself, a short escape, four hexadecimal digits, or two such units |
| ArchiveEncodings.FieldHolds | XTA/artifact_archive.py:262-293 | A name fits its header exactly when it is ASCII and at most 100 characters with its directory in front |
| ArchiveEncodings.ExtendedWhenNeeded | XTA/artifact_archive.py:262-293 | A member has an extended header exactly when its name or its size does not fit; the header carries what does not fit and nothing else, and a size that it carries is zero in the member's own header |
| ArchiveEncodings.HeaderIsItsLines | XTA/artifact_archive.py:262-293 | An extended header is a line for a path that does not fit and a line for a size that does not fit |
| ArchiveEncodings.TextAddsUp | XTA/artifact_archive.py:262-293 | The length of a text in UTF-8, and in a record, is the sum over its characters |
| ArchiveEncodings.RowsAddUp | XTA/artifact_archive.py:350-358 | The rows of a record stand one after another with a comma between them |
| ArchiveFormat.HeadersInBudget | XTA/artifact_archive.py:355-362 | A transaction whose record passes the budget test has no oversized header, so the append that writes one is always rolled back or stopped before its COMMIT |
| ArchiveFormat.ScanStep | XTA/artifact_archive.py:170-239 | A scanner step that goes on moves strictly forward and stays inside the file |
| ArchiveFiles.ArchiveFile.ScanFile | XTA/artifact_archive.py:170-239 | The scan loop over the file computes the scan that the theorems are about |
| ArchiveFiles.ArchiveFile.Index | XTA/artifact_archive.py:242-259 | The cached index always equals a fresh scan |
| ArchiveFiles.ArchiveFile.WriteTransaction | XTA/artifact_archive.py:332-366 | The writes of members, commit record and footer overlay the first blocks of the whole script, as many as the fault allows, and report the entries of the transaction |
| ArchiveFiles.ArchiveFile.Perform | XTA/artifact_archive.py:333-376 | Zeroing, writing and rolling back in place leave the blocks that the run model says |
| ArchiveFiles.ArchiveFile.AppendMembers | XTA/artifact_archive.py:296-382 | In place, the file and the cache move to the next state of the run model; it reports success exactly when the archive can be scanned, the names are admissible beside the committed ones, the record is within the budget and nothing fails, and then every member can be fetched; what is not admissible changes nothing |
| ArchiveAdmission.AppendPublishes | XTA/artifact_archive.py:300-382 | The whole rule, on names alone: where the archive can be scanned, an append without a fault extends the log exactly when it has members with distinct names, no committed name at or under its fresh prefix, only new names unless it replaces, no name that is a directory of another, and a record within the budget |
| ArchiveAdmission.UsedPrefixIsRefused | XTA/artifact_archive.py:319-322 | From every state of the invariant, an append with a fresh prefix that a committed name equals or lies under changes nothing, however it would have ended |
| ArchiveAdmission.UsedNameIsRefused | XTA/artifact_archive.py:323-324 | The same for a committed name in an append that does not replace |
| ArchiveAdmission.FileAsDirectoryIsRefused | XTA/artifact_archive.py:325-331 | The same for a name that would make a committed file a directory, or be one of its directories |
| ArchiveAdmission.ReplacementSucceeds | XTA/artifact_archive.py:300-382 | After any run, an append that replaces committed names is published, loses no name, and its names read back the new bytes |
| ArchiveAdmission.StoppedBefore | XTA/artifact_archive.py:332-340 | An append that dies before its script has zeroed so many blocks of the footer's place and touched no other |
| ArchiveAdmission.IndexIsLastWritten | XTA/artifact_archive.py:170-239 | Whenever the archive can be scanned, the index has exactly the committed names, and each reads back the bytes of the last committed transaction with that name |
| ArchiveAdmission.AcceptsItsMembers | XTA/artifact_archive.py:205-236 | A scan accepts a commit record exactly when it carries the identifier of the open transaction in its place and in its text, names each staged member once and nothing else, gives their lengths, and replaces or names nothing that is committed |
| GpuRuns.DevicesAreExclusive | XTA/backprojection.py:512-1176 | In every reachable state a device with inference in flight has no stage lease, no provisional reservation, no resident owner and is not retired; leases and tokens have the same keys; claims belong to leases |
| GpuAdmission.LeaseWasAdmitted | XTA/backprojection.py:767-983 | Over every run, a step that puts a lease on a device commits a claim whose stage is admitted there and then: the device idle, the residency its own or lent to a projection, and priority, retirement and the turn queue in its favour, all told on devices, flags, demands and times |
| GpuAdmission.PriorityIsKept | XTA/backprojection.py:767-796 | Over every run, a worker without a residency is leased during retirement only to a segmentation stage on a retired device, and under priority only to a projection, or to a backprojection with overlap on and no backlog; a projection under backlog holds the reserved turn and is the only one |
| GpuAdmission.ClaimSucceeds | XTA/backprojection.py:918-983 | The converse: an undisturbed claim gets its device exactly when its stage is admitted and nobody has reserved it, and otherwise no owner changes |
| GpuAdmission.ClaimIsTakenOnce | XTA/backprojection.py:948-962 | A claiming thread takes an auxiliary claim from a pool that has one exactly when the residency of its device does not hold one already |
| GpuAdmission.ProjectionEndsTurn | XTA/backprojection.py:642-659 | In every reachable state in which a projection holds a device, no turn is reserved and none handed over |
| GpuReservations.NoReservationLeaks | XTA/backprojection.py:918-1004 | In every reachable state each reservation belongs to a thread that is still claiming the device under that reservation |
| GpuReservations.LeavingGivesUpOwn | XTA/backprojection.py:984-1004 | Giving up a claim takes away its own reservation and no other thread's |
| GpuRules.BlocksUnless | XTA/backprojection.py:767-796 | A stage is held back exactly when the written-out rule says so: nothing holds back a device that is no worker; retirement lets in segmentation on a retired device; a projection needs no backlog, or the standing turn of its device with its own demand the oldest ready one and no projection leased; others need priority off, or be a backprojection with overlap and no backlog |
| GpuRules.ReservedWhenAdmitted | XTA/backprojection.py:936-944 | A device is reserved exactly for an admitted stage of the current run while nobody else has reserved it |
| GpuRules.CommittedWhenAdmitted | XTA/backprojection.py:970-983 | A claim commits exactly when its reservation is still there and its stage still admitted |
| GpuRules.DispatchedWhenFree | XTA/backprojection.py:862-880 | A dispatch is accepted exactly on a device that is not retired, resident, reserved or leased and whose turn does not stand; it counts one more dispatch there and starts the turns of that device afresh, and no other count changes |
| GpuRules.ScanFindsOldest | XTA/backprojection.py:632-640 | The scan over the demands finds the oldest that is alive, may use the device, and is due by pressure or by half a minute of waiting |
| GpuTurns.TurnGoesToOldest | XTA/backprojection.py:661-722 | Asking puts the demand; and unless a projection is under way or a turn stands, the oldest due demand with a device to drain gets its least loaded one, and no turn is reserved when there is none |
| GpuTurns.NoWorkerNoDemand | XTA/backprojection.py:661-696 | Asking for devices that are no workers puts no demand; it only lets the queue expire |
| GpuTurns.OutsideTakesNoTurn | XTA/backprojection.py:642-659 | A projection on a device that is no worker uses up nobody's turn |
| GpuTurns.TurnsGoRound | XTA/backprojection.py:705-716 | Among equally loaded devices the next turn goes to the first one behind the device served last, going round |
| GpuTurns.DemandIsPut | XTA/backprojection.py:683-696 | A demand is renewed in its place or put behind all others, lives thirty seconds from now and keeps its first time |
| GpuTurns.HandsOver | XTA/backprojection.py:1144-1176 | A projection that ends hands its device over for two seconds exactly when another reader is ready for it, it has a turn left and no other device is projecting |
| GpuTurns.OthersChangeNothing | XTA/backprojection.py:1144-1176 | Ending a stage or making it a residency with another purpose or another token changes nothing and gives no claim back |
| GpuDemands.DemandsPersist | XTA/backprojection.py:603-736 | In every run the queue holds at most one demand of each purpose, and a step leaves every demand that is in time, unless the step renews, withdraws or meets it, fails, or starts another run |
| GpuDemands.DemandIsMet | XTA/backprojection.py:642-736 | A projection that gets its device has no demand left in the queue, and neither has one that withdraws |
| GpuTurns.CoolsDown | XTA/backprojection.py:724-738 | After a failed probe or a failed demand all demands are gone and nobody is heard for ten seconds |
| GpuTurns.RetiresWhenDrained | XTA/backprojection.py:886-907 | A worker retires exactly when the run is being retired, nothing waits and nothing is in flight on any device |
| GpuTurns.ResidencyBegins | XTA/backprojection.py:1013-1059 | A stage that becomes a residency lets its owner come back, lends only to projections, and gives its claim back when it ends |
| GpuTurns.QuarantineCloses | XTA/backprojection.py:1039-1043 | A quarantined residency admits nobody but its owner |
| GpuRuns.ClaimsAreReleasedOnce | XTA/backprojection.py:936-1176 | In every reachable state no auxiliary claim has been released twice, and each claim still out has exactly one holder: a stage, a resident or a thread in the middle of a claim |
| GpuRuns.NoClaimLeaks | XTA/backprojection.py:812-1059 | When no thread is between two steps, every claim still out belongs to a live stage or a resident, across reconfiguration and reset |
| GpuRuns.BurstsAreBounded | XTA/backprojection.py:642-659 | Between two inference dispatches on a worker, at most two source projections are admitted there by the queue while inference is pending |
| GpuRuns.StaleLeaseIsHarmless | XTA/backprojection.py:1144-1176 | A token that once lost its device stays stale over every later run, and releasing it never changes the coordinator |
| GpuRuns.DemandsKeepOrder | XTA/backprojection.py:661-722 | Refreshing a demand leaves the live demands in order and never moves it behind a newer one; a new demand goes last |
| GpuRuns.PutKeepsFirst | XTA/backprojection.py:661-722 | Asking again renews the demand and keeps the time of its first request |
| GpuRuns.ExpiredHandoff | XTA/backprojection.py:603-630 | A handoff that is not claimed in time is withdrawn, and its device has then used up its turns |
| GpuRuns.OutOfTurnsWaitsForInference | XTA/backprojection.py:603-659 | A worker out of turns is not reserved for a projection and admits none by the queue until it dispatches inference |
| GpuRuns.CommitUsesTurn | XTA/backprojection.py:642-659 | An admission by the queue uses up a turn that the device still had |
| GpuRuns.ResidentBypassesQueue | XTA/backprojection.py:918-1037 | A resident owner of an idle free device gets its stage at once, in both phases, whatever the queue holds |
| GpuRuns.ReconfigureForgetsDispatches | XTA/backprojection.py:541-572 | Reconfiguring keeps the in-flight counts equal to the dispatches that are running if and only if none is running |
| GpuRuns.RunningDispatchOwnsDevice | XTA/backprojection.py:862-916 | When workers are reconfigured only between dispatches, nothing else owns a device on which a dispatch is really running |
| GpuReconfigure.ExclusiveExactlyWhenSettled | XTA/backprojection.py:541-572 | After a run is reconfigured, running dispatches keep their devices to themselves however it goes on if and only if none was running then |
| GpuReconfigure.SharedAfterReconfigure | XTA/backprojection.py:541-572 | The failing run, from every reachable state: reconfigured while a dispatch runs on a device, any idle thread leases that device in three steps while the dispatch is still running |
| GpuSafety.StepSound | XTA/backprojection.py:512-1176 | Every section of every step of every thread keeps the coordinator sound |
| GpuSafety.StageEligibleMoves | XTA/backprojection.py:918-934 | A stage is eligible only on an unclaimed idle device that its resident admits, and a queued projection only on the worker whose turn it is; the test changes nothing but the queue |
| GpuSafety.CommitSound | XTA/backprojection.py:970-983 | The second phase of a claim keeps the coordinator sound although anything may have happened since the first |
| GpuSafety.ReleaseSound | XTA/backprojection.py:1144-1176 | Releasing the exact stage frees its device, token and claim, hands the claim back to the caller, and leaves residents alone |
| GpuAccounts.StepAccounted | XTA/backprojection.py:936-1059 | Every step of every thread keeps the accounts: each claim has one holder until it is released once |
| GpuStages.LeastLoaded | XTA/backprojection.py:684-716 | The drained worker is one of the candidates and none of them is less loaded, ties going round robin |
| GpuStages.Fewer | XTA/backprojection.py:909-916 | Finishing a dispatch takes one from the count of its device and from no other, never below zero |
| GpuCoordinators.StageCoordinator.Refresh | XTA/backprojection.py:603-630 | The section that drops expired demands and settles a due handoff moves the fields as the state machine says |
| GpuCoordinators.StageCoordinator.BeginInference | XTA/backprojection.py:862-880 | A dispatch starts, and clears its device's burst, exactly when the state machine lets it |
| GpuCoordinators.StageCoordinator.FinishInference | XTA/backprojection.py:909-916 | Ending a dispatch moves the fields as the state machine says |
| GpuCoordinators.StageCoordinator.PriorityBlocks | XTA/backprojection.py:767-796 | Whether inference priority holds a stage back: exactly when the written-out rule does not let it in; the fields move as the state machine says |
| GpuCoordinators.StageCoordinator.StageEligible | XTA/backprojection.py:918-934 | The eligibility test answers and moves the fields as the state machine says |
| GpuCoordinators.StageCoordinator.Reserve | XTA/backprojection.py:936-944 | First phase of a claim, under the lock: granted exactly for the current run, a device nobody has reserved, and an admitted stage |
| GpuCoordinators.StageCoordinator.CommitStage | XTA/backprojection.py:970-983 | Second phase of a claim: everything is checked again, and the lease is installed exactly when the reservation is its own and the stage still admitted |
| GpuCoordinators.StageCoordinator.ReleaseStage | XTA/backprojection.py:1144-1176 | Releasing a stage, with the claim that the caller must give back |
| GpuCoordinators.StageCoordinator.PromoteResidency | XTA/backprojection.py:1013-1024 | A stage becomes a resident owner with its claim, exactly when its token is the live one |
| GpuCoordinators.StageCoordinator.ReleaseResidency | XTA/backprojection.py:1045-1059 | Ending a residency, with the claim that the caller must give back |
| GpuCoordinators.StageCoordinator.MarkRetired | XTA/backprojection.py:886-907 | A proof of retirement is accepted only for the current epoch and an idle device |
| GpuCoordinators.StageCoordinator.Configure | XTA/backprojection.py:541-572 | Reconfiguring is refused while a resident is left, and otherwise gives every claim back |
| GpuCoordinators.StageCoordinator.RequestTurn | XTA/backprojection.py:661-722 | Asking for a retirement turn updates the demands and chooses the next worker to drain |
| HoleFill.CropFillsPlane | XTA/_prediction_cleanup.py:84-127 | For every mask and every box that holds its foreground, filling the box and its halo fills the whole plane, foreground on an edge included |
| HoleFill.KnownBoxFillsPlane | XTA/_prediction_cleanup.py:84-127 | The same for any box a caller supplies that, once clamped, still holds the foreground |
| HoleFill.EscapesAlike | XTA/_prediction_cleanup.py:84-127 | A background cell of the crop reaches the border of the crop exactly when it reaches the border of the plane |
| HoleFill.FilledHasNoHoles | XTA/_prediction_cleanup.py:48-82 | A filled plane has no enclosed background, and filling again changes nothing |
| HoleFill.FillIsLeast | XTA/_prediction_cleanup.py:62-82 | Filling is the least plane above the mask without enclosed background |
| Neighbours.WalledIsFilled | XTA/_prediction_cleanup.py:48-82 | A background cell whose four sides are foreground is filled, whatever its corners are |
| Neighbours.SidesFillAlike | XTA/_prediction_cleanup.py:48-82 | Two background cells that share a side are both filled or both left open |
| Neighbours.OpenIsLeast | XTA/_prediction_cleanup.py:48-82 | What is left open is the least set that has the background of the border and spreads from side to side over background: without paths, and by rows and columns alone |
| Neighbours.BorderStaysOpen | XTA/_prediction_cleanup.py:48-82 | Background on the first or last row or column stays open |
| HoleFillers.EnclosedByLabel | XTA/_prediction_cleanup.py:48-56 | A background cell is enclosed exactly when its component's label misses the border |
| HoleFillers.BorderLabels | XTA/_prediction_cleanup.py:48-56 | The border scan marks exactly the labels that touch the border |
| HoleFillers.WriteEnclosed | XTA/_prediction_cleanup.py:110-127 | The write-back sets exactly the enclosed cells of the crop to one and no other cell |
| HoleFillers.FillHoles | XTA/_prediction_cleanup.py:84-127 | The in-place filler leaves the filled foreground of the whole plane, writes one to the cells it fills, and touches no other |
| ComponentFilter.ThresholdIsExact | XTA/_prediction_cleanup.py:26-28 | The byte threshold keeps exactly the bytes at or above the confidence scaled to 255, up to the rounding slack |
| ComponentFilter.BackgroundInFront | XTA/_prediction_cleanup.py:129-163 | A cell of another component is never nearer than some background cell |
| ComponentFilter.DistanceUnchanged | XTA/_prediction_cleanup.py:129-163 | Removing whole other components never changes whether a kept cell is far from background |
| ComponentFilter.BothFilters | XTA/_prediction_cleanup.py:129-198 | The two filters commute, and applying one after the other keeps what each keeps of the original |
| ComponentFilter.CleanedIsMeeting | XTA/_prediction_cleanup.py:200-270 | A cell survives the cleanup if and only if its component in the original slice meets every minimum that is switched on |
| ComponentFilter.CleanedIsWhole | XTA/_prediction_cleanup.py:200-270 | What survives is a union of whole components of the original |
| ComponentFilter.CleanedAgain | XTA/_prediction_cleanup.py:200-270 | Cleaning a cleaned slice with its silenced scores changes neither |
| Neighbours.TouchingStayTogether | XTA/_prediction_cleanup.py:129-198 | Two foreground cells at most one row and one column apart both survive the cleanup or both go |
| Neighbours.LoneStandsAlone | XTA/_prediction_cleanup.py:129-198 | A foreground cell with eight background neighbours survives exactly by its own score and its own squared distance from the background |
| Neighbours.SurvivesWithItsPart | XTA/_prediction_cleanup.py:200-270 | A cell survives exactly when every set around it that takes along whatever touches it holds a cell of the score and a cell of the depth asked for: without paths or labels |
| SliceCleanup.FilterByMaximum | XTA/_prediction_cleanup.py:146-182 | Keeping the labels whose maximum reaches the minimum keeps exactly the components with a cell that reaches it |
| SliceCleanup.KeptCells | XTA/_prediction_cleanup.py:200-250 | The branches for absent scores and switched-off minimums together compute the cleaned slice |
| SliceCleanup.CleanSlice | XTA/_prediction_cleanup.py:200-270 | In place: the mask becomes the cleaned foreground, scores become zero outside it, and the answer says whether anything is left |
| TileGate.TwoStages | XTA/assembly.py:2726-2768 | The mask stage and then the bridge stage on the residual accept together the whole components on mask or bridge support; the second accepts what the bridge supports and the mask did not |
| TileGate.StagesKeepComponents | XTA/assembly.py:2791-2829 | No stage cuts a component of the original tile |
| TileGate.VoxelsConserved | XTA/assembly.py:2791-2829 | Accepted and rejected voxels of a stage add up to the tile |
| TileGate.SupportOnTile | XTA/assembly.py:2726-2768 | Only the support on the tile's own foreground decides |
| Neighbours.TouchingGoTogether | XTA/assembly.py:2791-2829 | Two tile cells at most one row and one column apart are both accepted or both rejected |
| Neighbours.AcceptedIsLeast | XTA/assembly.py:2791-2829 | The accepted cells are the least set that has the supported tile cells and takes along every tile cell that touches one of its own |
| TileGate.SparseGateIsDense | XTA/assembly.py:2896-2936 | Gating a payload in its own crop accepts, moved to the parent, what the dense gate accepts, and the rejected payload offset back encodes the dense residual |
| TileGate.MovedEncodes | XTA/assembly.py:3037-3067 | A payload encoded in crop coordinates and then offset encodes the shifted plane |
| TileGate.TotalIsOrderFree | XTA/assembly.py:2831-2853 | The accumulator after any order of tiles holds the base and exactly the accepted voxels of each tile |
| TileGateInPlace.HitLabels | XTA/assembly.py:2791-2829 | The support scan marks exactly the labels that have a cell on support |
| TileGateInPlace.HitsDecide | XTA/assembly.py:2791-2829 | A cell is accepted exactly when its label is nonzero and occurs on support |
| TileGateInPlace.SplitTile | XTA/assembly.py:2791-2829 | The labelled split computes the accepted and the rejected voxels |
| TileGateInPlace.OrCrop | XTA/assembly.py:2711-2724 | The OR into the destination adds exactly the shifted cells and keeps every other bit |
| TileGateInPlace.GateTile | XTA/assembly.py:2659-2789 | In place: refused without a change exactly when the shapes do not fit; otherwise the tile keeps one side, both accumulators gain the accepted side, and the counts add up |
| SparseTranspose.TransposeIsPermutation | XTA/assembly.py:581-632 | Decoding the transposed store gives the dense sagittal or coronal permutation at every voxel, inside the crops and outside |
| SparseTranspose.TransposeUnique | XTA/assembly.py:1104-1179 | Index and payload are functions of the source alone, so the slab size does not matter |
| SparseBits.PixelIsOdd | XTA/assembly.py:1044-1078 | A pixel of a packed slice is set exactly when its byte, divided by 2 to the power of its column within the byte, is odd; of an unpacked one when its byte is not zero; with the address written out |
| SparseBits.ByteIsItsColumns | XTA/assembly.py:1027-1043 | Every byte that the transpose leaves is the sum of the powers of two of its lit columns: of each slice with a record, each row of its box, each byte of the row |
| SparseBits.CropAccepted | XTA/assembly.py:1044-1078 | A nonempty slice is valid exactly when its box lies in the plane, both sizes are those of the box and its bytes are there |
| SparseTranspose.TransposedReadable | XTA/assembly.py:1134-1179 | The readers accept the transposed store |
| SparseTranspose.SlabStep | XTA/assembly.py:1044-1078 | Each decoded slab brings exactly the next rows, none of them twice |
| SparseTranspose.VoxelsFit | XTA/assembly.py:1080-1102 | The permuted voxels are exactly the source's and fit the output shape |
| SparseBounds.AccumulateBounds | XTA/assembly.py:1001-1025 | The bounds kernel leaves in every slot the tight box of the voxels seen so far and counts the foreground of its crop |
| SparseBounds.ScanRow | XTA/assembly.py:1001-1025 | The row scan returns the count, the first and the last set column |
| SparseBounds.MergeIsBounds | XTA/assembly.py:1001-1025 | Merging a row's extremes into tight bounds gives the tight bounds of both |
| SparseLayout.ByteInSlice | XTA/assembly.py:1134-1147 | A voxel's byte lies in its own slice's part of the payload |
| SparseLayout.PlacesDistinct | XTA/assembly.py:1027-1043 | Distinct voxels have distinct (byte, bit) places |
| SparseLayout.LightOne | XTA/assembly.py:1027-1043 | Setting one bit lights one voxel and no other |
| SparseLayout.LitUnique | XTA/assembly.py:1027-1043 | The payload is determined by the boxes and the voxels |
| SparseLayout.LayOut | XTA/assembly.py:1134-1147 | The nonempty slices are laid out end to end, and the index records where |
| SparseTransposer.Survey | XTA/assembly.py:1116-1133 | The first pass is refused exactly when a nonempty slice is not a valid crop, and otherwise leaves tight bounds and the number of foreground voxels |
| SparseTransposer.ScatterCrop | XTA/assembly.py:1027-1043 | The scatter kernel lights exactly its crop's voxels besides those already lit |
| SparseTransposer.Scatter | XTA/assembly.py:1156-1165 | The second pass lights exactly the permuted voxels |
| SparseTransposer.Transpose | XTA/assembly.py:1104-1179 | Both passes together produce the transposed store, with the foreground conserved, or refuse |
| SparseStore.Address | XTA/interpolation.py:4339-4399 | The byte of a pixel lies inside its record's payload |
| ScoreBlocks.CutIsLossless | XTA/confidence_storage.py:113-133 | Every nonzero pixel lies in exactly one crop, crops are disjoint, and each stays inside one grid cell |
| ScoreBlocks.CutUnique | XTA/confidence_storage.py:113-133 | A plane has one cut, in one order |
| ScoreCutter.ScanTile | XTA/confidence_storage.py:113-183 | The occupancy of rows and columns gives the tight box of a tile, or none for an empty one |
| ScoreCutter.ScanTileInBand | XTA/confidence_storage.py:136-183 | The banded form, which slices the columns of a whole band, gives the same box |
| ScoreCutter.PlaneBlocks | XTA/confidence_storage.py:113-133 | The plane scan yields the cut of the plane, and is refused exactly for a bad block size |
| ScoreCropper.CropBlocks | XTA/confidence_storage.py:136-183 | Cutting crops is refused if and only if a crop leaves the plane or their nonempty cells do not rise strictly; otherwise it yields the cut of their union, in either occupancy branch |
| ScoreCropper.CropOne | XTA/confidence_storage.py:145-183 | One crop after others is accepted if and only if its nonempty cells come after theirs |
| ScoreCropper.CutsJoin | XTA/confidence_storage.py:136-183 | A cut followed by a later cut is the cut of both |
| ScoreCropper.CropCutsPlane | XTA/confidence_storage.py:136-183 | One crop that holds every nonzero pixel of a plane is cut like the plane |
| ScoreOverlay.OverlayRebuilds | XTA/confidence_storage.py:113-133 | Overlaying the crops of a plane's cut rebuilds the plane, scores and all |
| ScoreOverlay.AssembledCrop | XTA/confidence_storage.py:483-496 | The crops of a frame become one crop on the least box that holds them, with the largest score at every pixel; none for none |
| ScoreOverlay.MaximumInto | XTA/confidence_storage.py:493-495 | One crop over the result keeps the larger score at each pixel and changes no other |
| ScoreProjected.ReadCrop | XTA/confidence_native.py:263-290 | Chunk by chunk over flat positions, the running rows and columns end as the tight box of the plane's nonzero scores, or none for a blank plane |
| ScoreProjected.PartBounds | XTA/confidence_native.py:276-284 | The first and last position of a chunk give its rows, and all of them its columns |
| ScoreIndex.ValidateIndex | XTA/confidence_storage.py:431-446 | The chunked check accepts exactly the indices whose offsets link by 64-bit sums inside a chunk and exactly between chunks, in frame order and inside the grid; an index is valid if and only if it is accepted and its lengths add up to the payload |
| ScoreIndex.AcceptedIsValid | XTA/confidence_storage.py:431-446 | The exact condition, for every chunk size and any number of records: an accepted index is valid if and only if its record lengths add up to the payload |
| ScoreIndex.ValidMeans | XTA/confidence_storage.py:431-446 | A valid index says, and says only, that every block is a nonempty rectangle inside its plane of the volume, frames never go back, and the compressed bytes, none empty, fill the payload one behind the other |
| ScoreIndex.WrappedIsAccepted | XTA/confidence_storage.py:431-446 | The failing input: 2^32 + 3 records of the greatest length fit their fields and are accepted in the reader's own chunks although the last offset has come round |
| ScoreIndex.NoWrap | XTA/confidence_storage.py:431-446 | Up to 2^32 records the reader accepts the valid indices and no others |
| ScoreIndex.ChainBounds | XTA/confidence_storage.py:431-446 | Every record of a chain ends inside the payload in which the chain ends |
| ScoreJoin.SearchFindsFrame | XTA/confidence_storage.py:451-458 | On an index in frame order the two searches enclose exactly the records of the frame |
| ScoreJoin.IterCrops | XTA/confidence_storage.py:451-465 | Reading a frame by its slice fetches exactly the encoded blocks of that frame, in order, and is refused outside the grid |
| ScoreReader.DecodeBlock | XTA/confidence_storage.py:466-469 | The bounded decoder, which asks for one byte more than the box has pixels, yields the block's pixels if and only if its stream ends, holds exactly that many and is followed by nothing |
| ScoreReader.ReadFrame | XTA/confidence_storage.py:451-470 | Reading a frame decodes all its blocks in order, and is refused outside the grid and at the first block that does not decode |
| ScoreReader.FrameReads | XTA/confidence_storage.py:451-470 | A frame reads exactly when every stream ends within its block, nothing follows it and it holds as many bytes as the block has pixels; a broken, short, long or followed stream spoils the frame |
| ScoreWriter.BlockWriter.Put | XTA/confidence_storage.py:325-352 | A block goes in by way of the batch or past it, in order, and is refused exactly when the store would outgrow its limit |
| ScoreWriter.BlockWriter.FlushBatch | XTA/confidence_storage.py:245-258 | A flush moves the batches behind what is written and empties them |
| ScoreWriter.BlockWriter.WriteBlocks | XTA/confidence_storage.py:235-352 | For every frame sequence and limit: accepted if and only if all blocks fit, and then index and payload are those of the concatenated blocks |
| ScoreWriter.LimitMeans | XTA/confidence_storage.py:235-352 | A store is within its limit exactly when its compressed bytes and 28 bytes of index for each block are |
| ScoreWriter.WrittenOpens | XTA/confidence_storage.py:431-446 | What the writer wrote has contiguous offsets, rising frames and boxes inside the grid, so a reader accepts it |
| ScoreWriter.WrittenReads | XTA/confidence_storage.py:451-470 | Reading a frame back yields exactly its blocks in order, whatever follows in the payload |
| ScoreWriter.StoreRoundTrip | XTA/confidence_storage.py:186-465 | The written store opens, and every frame of it is fetched as it was written |
| ScoreReader.PlaneRoundTrip | XTA/confidence_storage.py:186-496 | The round trip from planes to planes, for every compression that can be undone: the store of the captured frames opens, each frame decodes, and overlaying its crops gives back the kept scores at every pixel |
| ScoreReader.FrameDecodes | XTA/confidence_storage.py:466-470 | The stored blocks of a frame decode to the raw cells that were compressed |
| ScoreReader.CellsRebuild | XTA/confidence_capture_cpu.py:10-49 | Overlaying the raw cells of the capture scan gives the masked scores inside the support, and zero elsewhere |
| ScoreReader.CellPixel | XTA/confidence_capture_cpu.py:42-49 | Every byte of a cell is the masked score of its pixel |
| ScoreLeases.JoinPreservesReads | XTA/confidence_consolidation.py:167-232 | For every gap-free set of leases, in any order, reading frame z of the joined store equals reading frame z minus its start in the owning lease, and equals reading the pieces side by side |
| ScoreLeases.JoinedFrames | XTA/confidence_native.py:191-220 | Reading the concatenated stores equals picking the piece that owns the frame |
| ScoreLeases.CoverOwners | XTA/confidence_consolidation.py:94-104 | Gap-free leases give every frame of the view exactly one owner |
| ScoreLeases.SortKeeps | XTA/confidence_consolidation.py:94-104 | Sorting keeps the pieces |
| ScoreJoin.RebaseKeepsIndex | XTA/confidence_consolidation.py:121-164 | A rebased index is a chain from its new base, in frame order and inside the view |
| ScoreJoin.RebaseKeepsFrame | XTA/confidence_consolidation.py:121-164 | A rebased index over the joined payload reads the frames of its lease, moved by the start |
| ScoreJoin.JoinedIsValid | XTA/confidence_consolidation.py:186-194 | The joined index passes the reader's check |
| ScoreLeaseWriter.RebaseDoesNotWrap | XTA/confidence_consolidation.py:121-164 | The 32-bit frame numbers and 64-bit offsets of the rewrite never wrap for what preflight accepts |
| ScoreLeaseWriter.GoodChunk | XTA/confidence_consolidation.py:121-164 | Every chunk of a good index is accepted, wherever the boundaries fall |
| ScoreLeaseWriter.ChunkContinues | XTA/confidence_consolidation.py:121-164 | An accepted chunk after an accepted beginning makes a longer accepted beginning, whatever wraps |
| ScoreLeaseWriter.RewriteIndex | XTA/confidence_consolidation.py:121-164 | For every chunk size an index is good if and only if the chunked rewrite accepts it and its lengths add up to the payload; what it yields are the rebased records in the widths of their fields |
| ScoreLeaseWriter.WriteDisjointLeases | XTA/confidence_consolidation.py:45-232 | Leases pass preflight with good indices if and only if the join accepts them and their lengths add up; what it then publishes is the joined store with the totals of its manifest |
| ScoreLeaseRules.PreflightMeans | XTA/confidence_consolidation.py:43-111 | What the join demands of metadata, written out: 31-bit dimensions, at least one lease, each over the whole plane with sensible counts, one block size and quantization for all, every frame in exactly one, payloads that 64 bits can count |
| ScoreLeaseRules.CoverMeansOneOwner | XTA/confidence_consolidation.py:98-106 | Sorted leases follow each other without gap or overlap exactly when every frame of the volume has one owner and no lease reaches beyond it |
| ScoreLeaseRules.GoodIndexMeans | XTA/confidence_consolidation.py:130-174 | What the join demands of an index, written out: as many records as the manifest says, each a nonempty rectangle inside its plane and inside one cell of the grid, later blocks in later frames or cells, bytes that fill the payload, and no more known pixels than the blocks have |
| ScoreRejoin.JoinIsLease | XTA/confidence_consolidation.py:45-232 | The joined store with its manifest passes the very checks its pieces had to pass, so that joins nest, and joined alone it stays as it is |
| ScoreCapture.MaskedCellBounds | XTA/confidence_capture_cpu.py:10-39 | The fused scan yields the cut of the masked scores, each crop with its number of known pixels |
| ScoreCapture.FusedCutsAlike | XTA/confidence_evidence.py:823-828 | The fused bounds equal the crops that the simple pipeline cuts from the masked scores |
| ScoreCapture.ScanCell | XTA/confidence_capture_cpu.py:18-39 | One pass over a cell gives the tight box and the count of its known pixels |
| ScoreEncode.CopyBatch | XTA/confidence_capture_cpu.py:52-76 | The batch copy is refused exactly when it exceeds its bounds, and otherwise holds each cell's masked bytes end to end |
| ScoreEncode.CopyCell | XTA/confidence_capture_cpu.py:42-49 | The cell copy holds the masked bytes of the cell, row by row |
| ScoreEncode.EncodeCells | XTA/confidence_evidence.py:865-913 | Encoding a frame in batches gives the same records as encoding cell by cell, however the batches fall |
| ScoreEncode.MaskSupport | XTA/confidence_evidence.py:230-263 | Masking in place by strips zeroes exactly the unmasked scores inside the support, whatever the strip height |
| ScoreEncode.ScoresReplaceMask | XTA/confidence_evidence.py:230-263 | After masking in place, using the scores as their own mask gives the same known pixels and the same bytes |
| ScoreEncode.BatchFits | XTA/confidence_evidence.py:865-880 | A batch of as many grid cells as the frame chooses always meets the bounds of the copy |
| CapturePlan.AdmittedFits | XTA/confidence_capture.py:35-83 | An admitted plan fits its workspace: the fixed part, the consumer and every worker together stay within the budget, and its batches within the copy bounds |
| CapturePlan.RetainedFits | XTA/confidence_capture.py:69-84 | In every run of a capture's ordered stream, the frames retained by its window and its consumer, charged as workers, fit the workspace beside the fixed part and the frame just published |
| CaptureFrames.EveryFrameFits | XTA/confidence_capture.py:54-69 | The consumer's charge holds every frame: whatever crops it has, one to a cell, and however badly they compress within zlib's bound, their bytes and 768 more for each fit; so does a worker's |
| CaptureFrames.CutIsCelled | XTA/confidence_capture.py:54-69 | Every cut of a plane is made of such crops |
| CaptureFrames.WorkerPays | XTA/confidence_capture.py:61-70 | A worker is charged a frame, a mebibyte, two raw cells and the largest batch of at most 16 cells and 256 KiB |
| CaptureFrames.AdmitsAllThatFit | XTA/confidence_capture.py:44-84 | A capture is turned away exactly when its request makes no sense or its tables, or one worker with the consumer frame, cost more than the budget; an admitted one gets every worker it asks for, has planes for or can pay |
| OrderedPlanes.PublishedInOrder | XTA/confidence_storage.py:49-102 | Whatever operations fail and whenever the stream is handed over, closed or abandoned, planes are published in order, each once, and never more are retained on the CPU side than there are workers |
| MaxPool.PoolingIsPartitionFree | XTA/confidence_export.py:85-117 | Any two feeds of crops that hold the known scores pool to the same maximum, whatever their crops and order |
| MaxPool.FedIsLargest | XTA/confidence_export.py:85-117 | What has been fed at a pixel is the largest score any crop held there |
| MaxPool.FootprintsHoldAll | XTA/confidence_export.py:66-72 | When the output is no larger on either axis, every source pixel is in some footprint |
| PoolFootprints.FootprintIs | XTA/confidence_export.py:66-73 | When neither axis grows, a source pixel is in the footprint of an output pixel exactly when y*outH < (i+1)*srcH and i*srcH < (y+1)*outH, and the same for columns; otherwise the footprint is the one pixel of the floor quotients |
| PoolFootprints.FramesAre | XTA/confidence_export.py:76-82 | The frames of an output plane are exactly those that overlap it, or when time grows the one nearest to it with the ends aligned, ties to even |
| MaxPool.Horizontal | XTA/confidence_export.py:105-109 | The horizontal array holds, for every crop row and selected column, the maximum over the column's span, computed offset by offset under the active mask |
| MaxPool.Vertical | XTA/confidence_export.py:110-115 | The second pass over the horizontal array gives the maximum over each pair of row and column spans |
| MaxPool.Spans | XTA/confidence_export.py:103-111 | The spans of the selected rows or columns are their footprints clipped to the crop and shifted into it, none of them empty |
| MaxPool.WriteSelection | XTA/confidence_export.py:116-117 | Writing the selection makes every output pixel the maximum of before and the crop, the unselected ones included, which the crop does not meet |
| MaxPool.MaxCropInto | XTA/confidence_export.py:85-117 | Feeding a crop makes every output pixel the maximum of all fed so far over its footprint, and is refused exactly when the crop leaves the source |
| MaxPool.CompactScorePlane | XTA/confidence_export.py:76-139 | On the mask each pixel is the maximum of the plane's source frames over its footprint, off the mask zero; a blank mask reads nothing, and a crop outside the source is refused |
| PoolFootprints.CompactedPixel | XTA/confidence_export.py:76-139 | On the mask every pixel is at least each captured score whose frame, row and column extents overlap its own, and equals one of them or is zero; off the mask it is zero |
| MaxRestore.SeparableIsDirect | XTA/confidence_projection.py:71-103 | The two forms agree, from what their methods leave: on the mask the separable pooling of the crops has the value of the direct restoration by masked offsets, and zero off it |
| MaxRestore.SameFrames | XTA/confidence_projection.py:80-86 | Both forms read the same source frames of an output plane |
| MaxRestore.FedIsFrameMax | XTA/confidence_projection.py:94-102 | The maximum over frames of what the crops hold is the maximum of the frames |
| MaxRestore.RestoreSlice | XTA/confidence_projection.py:71-103 | Restored chunk by chunk, frame by frame and offset by offset under the masks, every pixel is the maximum over its footprint, for every chunk size |
| PoolFootprints.RestoredPixel | XTA/confidence_projection.py:71-103 | The same for the direct form over all scores of the overlapping frames and pixels, at the row-major place of the pixel |
| AxisRanges.FootprintsAdvance | XTA/confidence_export.py:66-73 | When contracting, the integer footprints are nonempty, inside the source, and move forward without gaps |
| AxisRanges.FootprintsCover | XTA/confidence_export.py:66-73 | Contracting footprints cover every source row |
| AxisRanges.FootprintEnds | XTA/confidence_export.py:66-73 | The first footprint starts at the first source row and the last ends at the last |
| HostRows.StagingHolds | XTA/backprojection.py:3924-3998 | No run of output rows up to the chunk length, the shorter last one included, needs more source rows than the staging buffer sized once by that chunk, also when the chunk is longer than the axis, contracting or expanding, however the quotients round |
| HostRows.KernelIsHost | XTA/backprojection.py:4124-4138 | When contracting, the rows that the host computes in doubles are the integer rows of the device kernel (lines 3326-3330), however the quotients round, while products are below 2^53 |
| HostRows.HostLosesRow | XTA/backprojection.py:4124-4138 | Beyond 2^53 an input at which the host leaves out the last row that the kernel reads |
| HostRows.KernelHoldsNearest | XTA/backprojection.py:4124-4140 | When expanding, the kernel's rows contain the one row that the host rounds to, however its three steps round |
| HostRows.RoundIsExact | XTA/confidence_export.py:81-82 | Rounding a quotient of doubles, ties to even, gives the exact nearest integer |
| HostRows.FootprintFramesAreExact | XTA/confidence_projection.py:80-83 | The frames that the projection computes in doubles are those the export computes in integers |
| HostRows.NearestFrameIsExact | XTA/confidence_export.py:76-82 | The nearest frame when expanding in time is the exact one, for lengths that multiply to less than 2^52 |
| HostRows.FrameRoundsAway | XTA/confidence_export.py:76-82 | On axes of more than 2^27 frames, for a whole family of lengths, the tie below which the middle frame lies is the nearest double and the frame after the nearest one is taken |
| OrderedPlanes.GpuWorksAlone | XTA/backprojection.py:4735-4794 | Once the GPU phase begins no CPU operation is running or queued, and none ever starts again, though a running one refuses to be cancelled at the handover |
| OrderedPlanes.GpuHoldsTwo | XTA/backprojection.py:4374-4403 | The GPU side holds at most two planes and runs at most one operation, never further than the plane behind the last published |
| OrderedPlanes.ClosingAdvances | XTA/backprojection.py:4365-4371 | While the CPU window closes, a plane can be cancelled, the threads joined, or a running operation is left to finish: closing never sticks |
| OrderedPlanes.EndsComplete | XTA/backprojection.py:4340-4403 | A stream that is over has joined every operation on both sides, and has published every plane unless a failure or its consumer cut it short |
| PlanesProgress.NeverStuck | XTA/backprojection.py:4340-4403 | From every reachable state that is not over, on the CPU or on the GPU, some event goes on |
| PlanesProgress.EveryPlaneCanBePublished | XTA/backprojection.py:4340-4403 | Every reachable stream can be brought to its end, and unless it was cut short or a plane that it counts on has failed, to one at which all planes have been published in order |
| PlanesProgress.HandOverPublishesRest | XTA/backprojection.py:4735-4794 | Whatever has become of the window, a consumer that holds a plane can hand over to the GPU, and all remaining planes can then be published |
| PlanesProgress.CutShortMeansMissing | XTA/backprojection.py:4340-4403 | A stream that is over was cut short exactly when planes are missing |
| PlanesProgress.FailureCloses | XTA/backprojection.py:4340-4403 | A failed plane that the consumer asks for, and a consumer that leaves, close the stream and keep what has been published |
| PlanesProgress.StartedRunsToEnd | XTA/backprojection.py:4340-4403 | In every run an operation that has started goes on until it is done or fails, and a queued one is cancelled only while its producer is being closed |
| OrderedPlanes.StepKeeps | XTA/backprojection.py:4340-4403 | Every submission, start, end, failure, take, abandonment, cancellation, handover and join keeps the window consecutive behind the published planes and every operation accounted for |
| PublicationSlots.SlotsAreConserved | XTA/confidence_publication.py:202-321 | In every reachable state reserved bytes are the slot size times the live slots less the overdrawn ones and stay within the limit; they equal the live slots if and only if no attempt is overdrawn; the staging count equals the stages in work |
| PublicationSlots.SlotIsReturnedOnce | XTA/confidence_publication.py:242-321 | Every attempt is granted at most one slot; once it is over its backing is closed, and its slot has come back exactly once if and only if its submission was not split; RAM promises equal the open memory backings |
| PublicationSlots.NothingAfterClose | XTA/confidence_publication.py:360-368 | Once closed, the queue reserves nothing any more |
| PublicationPaths.SlotIsGranted | XTA/confidence_publication.py:242-256 | A slot is granted exactly when the queue is open, has no error and the limit allows one more; an error or a close raises, otherwise the caller waits |
| PublicationPaths.BackingOpens | XTA/confidence_publication.py:85-128 | A made stage goes to RAM exactly when the headroom covers all promises and a slot and its pages more |
| PublicationPaths.PublishedAttemptLeavesNothing | XTA/confidence_publication.py:242-305 | From slot granted to slot returned: an attempt that is published leaves queue and promises as they were, however its stage was backed |
| PublicationPaths.JobReturnsSlot | XTA/confidence_publication.py:269-299 | A job that a thread takes up gives back slot and promise, and its failure stays with the queue |
| PublicationPaths.CallerReturnsSlot | XTA/confidence_publication.py:306-321 | A caller whose stage failed gives back slot, promise and count; one whose stage is too large goes on to stream it |
| PublicationSlots.SplitSubmissionOveradmits | XTA/confidence_orchestration.py:122-125 | The failing run, for every queue: a submission enqueues its job and raises, for lack of a thread or by an interrupt, the job and the caller both give the slot back, and the queue then holds live slots beyond its limit with no error recorded |
| PublicationSlots.StepCounted | XTA/confidence_publication.py:202-321 | Every step of any attempt keeps the totals equal to the sum over attempts |
| PublicationSlots.Reachable | XTA/confidence_publication.py:172-321 | The accounts of every attempt and of the queue hold in every reachable state |
| PublicationQueue.NumericBacking.Close | XTA/confidence_publication.py:38-69 | Closing a backing gives its RAM promise back the first time only |
| PublicationQueue.AdmitBacking | XTA/confidence_publication.py:85-128 | A memory backing is admitted exactly when whole slot and pages fit the headroom beside all promises, and only then is the promise taken |
| PublicationQueue.ConfidencePublicationQueue.TryReserve | XTA/confidence_publication.py:242-262 | One turn of admission refuses exactly after an error or close, reserves exactly when a slot fits, and otherwise waits unchanged |
| PublicationQueue.ConfidencePublicationQueue.Release | XTA/confidence_publication.py:222-240 | Releasing gives one slot back and records the first error |
| PublicationQueue.ConfidencePublicationQueue.Close | XTA/confidence_publication.py:360-368 | Closing stops admission and settles when no stage is in work |
| HostPool.HostPublicationPool.TryReserve | XTA/d1_confidence_retirement.py:21-35 | A reservation is granted exactly when size, bytes, tasks and the open pool allow, and is then accounted for |
| HostPool.HostPublicationPool.Release | XTA/d1_confidence_retirement.py:37-41 | Releasing takes the size and one task off the accounts, as often as it is called |
| HostPool.HeldReservation.Release | XTA/d1_confidence_retirement.py:60-63 | Releases that do not overlap give the credit back the first time only |
| HostPool.CreditsAreConserved | XTA/d1_confidence_retirement.py:21-88 | Over all runs of many reservations, tasks and bytes are those of the live reservations less those given back twice, within the limits; whenever no release is under way they equal the live ones if and only if no two releases of a reservation have overlapped |
| PoolPaths.GrantedWhenItFits | XTA/d1_confidence_retirement.py:21-35 | A reservation is granted exactly when its size is not negative, the pool is open, and bytes and tasks have room for it |
| PoolPaths.FailureReturnsCredit | XTA/d1_confidence_retirement.py:55-88 | A capture that fails, and one whose submission is refused, give back what they were granted, once |
| PoolPaths.JobReturnsCredit | XTA/d1_confidence_retirement.py:55-88 | A job gives its credit back when it is done and not before |
| HostPool.ReleasedOnce | XTA/d1_confidence_retirement.py:55-88 | A settled reservation was given back once if and only if its releases did not overlap, and twice if and only if they did |
| HostPool.OverlapOveradmits | XTA/d1_confidence_retirement.py:55-88 | The failing run, for any limits: overlapping releases let the pool grant two reservations each of which fills it |
| CaptureRetirement.RetiredNeverWhileRead | XTA/confidence_orchestration.py:70-156 | Over every interleaving of declined, accepted and raising submissions, run, cancellation, callback and the caller's own call, a source is retired at most once and never while the reader or the caller reads it |
| CaptureRetirement.RetiredExactlyOnce | XTA/confidence_orchestration.py:70-188 | A run in which nothing can happen any more has retired the source exactly once |
| CaptureRetirement.CallersRetirement | XTA/assembly.py:2008-2010 | The caller's call in its finally clause is the second one after a failed submission, and changes nothing; without a task it is the first; no reader is at work in either case |
| CaptureRetirement.ConfidenceSourceRetirement.Call | XTA/confidence_orchestration.py:70-80 | The shared one-shot retires the source the first time only |
| CaptureRetirement.RevokedNeverReads | XTA/confidence_orchestration.py:122-130 | A capture revoked before it started never reads its source |
| CaptureRetirement.JoinWaitsForReader | XTA/confidence_orchestration.py:106-130 | A join that returns finds the reader over and the source retired |
| RetirementPaths.EveryRunCanSettle | XTA/confidence_orchestration.py:70-188 | From every reachable state no more than a dozen events bring a capture to rest, its source retired exactly once |
| RetirementPaths.ReaderRetires | XTA/confidence_orchestration.py:132-158 | A task whose caller holds its future captures the source and retires it itself |
| RetirementPaths.CallbackRetires | XTA/confidence_orchestration.py:190-200 | A queued task that is dropped leaves the source to the callback of its future |
| RetirementPaths.CallerRetiresOwn | XTA/assembly.py:1999-2010 | Without a task the caller reads the source and retires it in its finally clause, also when it fails before or while it reads |
| RetirementPaths.SubmitterRetires | XTA/confidence_orchestration.py:122-130 | When the submission raised before the reader began, the submitter retires the source and the reader never reads it |
| RetirementPaths.RevokedStaysRevoked | XTA/confidence_orchestration.py:122-140 | In every run, once a submission has raised before its reader began and has been revoked, the reader never starts |
| RetirementPaths.SubmitterWaits | XTA/confidence_orchestration.py:122-130 | When it raised after the reader began, the submitter waits until the reader has retired the source, and the caller changes nothing more |
| CaptureRetirement.RetiringConfidenceCapture.Close | XTA/confidence_orchestration.py:106-120 | The first close retires the source and sets the event; every later one changes nothing |
| CaptureRetirement.RetiringConfidenceCapture.RevokeOrJoin | XTA/confidence_orchestration.py:122-130 | A started capture is left to be joined; any other is closed here |
| CaptureRetirement.RetiringConfidenceCapture.Begin | XTA/confidence_orchestration.py:132-140 | The reader starts exactly when the capture was not revoked |

## Left out

- ArchiveSafety.CrashSafety: for runs whose committable appends name their transaction in their first header; the exact condition and the failing run are ArchiveExact.CrashSafeWhenSigned and ArchiveTorn.UnsignedHeaderRevives.
- ArchiveStopped.StoppedAppendScans: over leftovers without headers; over any leftovers ArchiveStopped.AnyLandingDecides gives the result of a stop short of the commit and outside an extended header, by what follows the landing block, and ArchiveTorn.LocksForGood that of a stop behind a header over the budget.
- ArchiveStopped.EveryEndingScans: over leftovers without headers, like the result above.
- ScoreLeaseWriter.WriteDisjointLeases: of the manifest the counts, block size, quantization and shape are modelled, its digests and provenance are not.
- HostRows.KernelIsHost: for axes whose lengths multiply to less than 2^53, so that the host's products are exact; beyond that it fails, as HostRows.HostLosesRow shows.
- HostRows.FootprintFramesAreExact: for axes whose lengths multiply to less than 2^53, as above.
- HostRows.RoundIsExact: for numerators below 2^52, so that their halves are told apart; beyond that HostRows.FrameRoundsAway gives failing quotients.
- HostRows.NearestFrameIsExact: for axes whose lengths multiply to less than 2^52; beyond that it fails, as HostRows.FrameRoundsAway shows.
- MaxPool.CompactScorePlane: takes the exact nearest frame when expanding in time, which is the one the export rounds to by HostRows.NearestFrameIsExact.
- HostRows.KernelHoldsNearest: for outputs of fewer than 2^48 rows.
- HostRows.StagingHolds: for rows staged as they are; the reduced processing grid that remaps native rows is not modelled.
- Portability checks of member names (`XTA/artifact_archive.py:46-68`) and the listing helpers; a damaged name would raise, which a scan is allowed to do.
- The cursor of `_MemberReader`, the waiting inside the reader and writer locks, `fsync`, file replacement and directory publication.
- The coordinator's read-only queries, its telemetry, wake callbacks, and the class forms of cancelling a request, of pressure and priority switches and of quarantine; as steps of the state machine all of them are modelled.
- Statistics the gates return beyond voxel counts, and the volume drivers that run the slice cleanup in parallel.
- Extent metadata and segment bookkeeping of a store, the copy of payload in chunks, and the least-recently-used cache of 32 readers in `NativePieceReader`.
- The slab form of `ProjectedScoreReader`, `join_publications`, `drain` of the host pool, and the sticky error and draining of `ConfidenceCaptureQueue`.
- `resize_score_plane_max`, and the shape and value errors of `compact_score_plane`.
- The shared scheduler's form of the ordered planes (`XTA/native_pull_scheduling.py`), which shares one CPU allowance among streams; the local window is modelled.
- CUDA, TensorRT, CuPy and Torch, azimuthal and spherical geometry, zlib and JSON themselves, the command line, and everything else in the repository.
