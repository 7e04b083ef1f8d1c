# Jyth: verified models

Dafny models of the parts of Jyth that keep promises across crashes, races and
byte streams, with proofs of those promises. `dafny verify dfyconfig.toml` checks
everything.

## What is modelled

**Who owns what on the host** (`Journal`, `Protocol`, `Ownership`, `Sessions`,
`Deletion`, `Claims`, `Cleanup`, `Provisioning`). A launch journals its intent, then creates a
network, disks and a compute system, journaling each; cleanup passes remove them,
retry, and give up into an inventory; a later process recovers the sessions of crashed
ones. `Protocol` is that code one journal transaction or external effect at a time;
reading a file's identity and unlinking what is at its path are separate steps.
`Sessions` interleaves any number of processes, crashes, and outsiders who do what they
like to files; `Deletion` says which of those runs are safe for files, and `Claims`
which files are safe at a given moment. In the classes
`SessionJournal` and `Host` every effect of a method is shown to be a step of the
protocol, and what each does is said in terms of the record it found and of the answers
the host gives it (`Cleanup.Answers`, `Provisioning.LaunchAnswers`). Between two file
operations of a method others may act on files if the host is `shared`; on a host that is
not, the methods say exactly what they leave. Steps of other VMs on the journal in the
middle of a method are not interleaved there, they are in `Sessions`.

**Scheduling guest requests** (`Dispatch`). The queue, the two semaphore lanes, the
deadline sweep, and permit holders outside the dispatcher. Its books record what arrived,
what was started and what each request was told.

**Capturing output and running a process** (`Capture`, `Runner`). A capture is
specified by the byte stream alone; the accumulator that sees it in chunks is proved
to compute it. The runner is proved against a script of everything that can happen to a
process: what its observer is shown, and which of several failures it reports.

**Boot images** (`Archive`, `Cpio`, `Initramfs`, `GuestPath`, `Overlay`, `Emission`,
`Writers`, `Publish`, `Assembly`, `BootImage`, `BootExamples`). Overlay validation, the archive format,
merging, the content-derived cache and atomic publication, up to one statement about
the file tree the guest unpacks. `Archive` is stated for any reader of single entries;
`Cpio` supplies the `newc` one, laid out as in the Linux kernel's document "initramfs
buffer format" (magic 070701); `Initramfs` unpacks as the kernel does, which creates no
parent directories, keeps a directory that is not empty, and follows symbolic links
above a name to wherever they lead. `Writers` interleaves any
number of processes that publish under shared names, and the class `CacheDirectory` is
one of them, its every effect a step of that protocol and its result told by what the
file system answers (`Publish.Io`).

**Printers and parsers** (`Text`, `Quoting`, `OciReference`, `OciGrammar`, `Framing`). Windows
argument quoting against the `CommandLineToArgvW` rules, OCI references against the
name grammar in section "Pulling manifests" of the OCI Distribution Specification and,
with scheme, host and shorthand, against a printer of all their spellings,
length-prefixed frames.

Clocks, randomness, I/O errors, other processes and the outcome of host calls are
parameters or nondeterministic choices. Three assumptions are made: a redb transaction
is atomic and durable; a newly created file has an identity never seen before, so
identities are not reused after a deletion; BLAKE3 and JSON serialisation are injective
(`Assembly.Digest`, `Assembly.Key`).

Where the code and its documentation differ, or a natural claim is false, the code is
followed:

- A file is named by its path when it is created and when it is unlinked, and known by
  its identity in between. A foreign file put at the path between the create and the
  reading of its identity, or between the comparison and the unlink, can be deleted:
  `Deletion.SafeExactlyOutsideWindows` says that a foreign file put at a path is safe
  for ever exactly when the path is in neither window, and `Deletion.WindowsOccur` that
  both occur. Taking the file away between comparison and unlink can cost another
  launch its new file (`Deletion.TakenWhereComparedIsHarmful`).
- A published persistent disk can be deleted. Cleanup reads only the record of its own
  VM, so a launch that made an ephemeral disk and crashed still claims the file after
  another launch found it, reused it and published it as persistent; recovery of the
  first then deletes it (`Claims.PublishedDiskIsLost`).
  `Claims.SurvivesExactlyUnclaimed` says that a file survives exactly when no launch
  claims it any more, and `Claims.ReliedOnSurvivesExactlyUnclaimed` what that means for
  disks recorded as pre-existing or published.
- A round of `start_ready` does not always leave nothing startable: when an outside
  holder takes the last permit of a lane between the scan and the acquire, the request
  is put back and the round ends. `Dispatch.LostRound` performs such a round, after
  which a shutdown waits. `Dispatch.Dispatcher.StartReady` says exactly when work is
  left behind, and that without such holders none is.
- The given `init` does not always win as pid 1: when the base holds `/init` as a
  directory that is not empty, that directory stays (`BootExamples.TakenInitExample`),
  and a link of the base can lead a later file of the overlay to `/init`
  (`BootExamples.LedInitExample`). `BootImage.InitStandsExactly` says exactly when it
  stands, `BootImage.InitPrevails` what that comes to without such links.
- An overlay file whose parent directory is neither in the base nor in the overlay is
  dropped by the kernel (`BootExamples.OrphanExample`); `BootImage.NodesPrevail` says
  exactly which nodes stand.
- The table above `classify_disk` has an existing file rejected only for ephemeral disks;
  the code rejects it under the `Error` policy whatever the retention
  (`Provisioning.TableIsFollowedExactly`).
- A stream cut exactly between two frames also reads as truncated
  (`Framing.CutStream`), not only one cut inside a frame.
- Overlay inodes are apart from each other only below a 32-bit wrap-around
  (`Emission.InodesAreApart`).

## Model

| member | source | states |
|---|---|---|
| Journal.IsCompleteMeansAllTerminal | libs/hypervisor-hcs/src/journal.rs:177-188 | a record is complete exactly when every resource, wherever it is stored, is removed or abandoned |
| Journal.NotingKeepsTheRest | libs/hypervisor-hcs/src/vm.rs:536-565 | noting the state of one resource leaves the others, and all else known of a disk, but for the access entry of a file that is gone |
| Journal.Upsert | libs/hypervisor-hcs/src/journal.rs:452-462 | an entry of a kind and identity already listed keeps its first timestamp and its place; a new one is appended; nothing listed is lost |
| Journal.MergeKeepsInventory | libs/hypervisor-hcs/src/journal.rs:445-480 | merging keeps one entry per kind and identity, keeps the first timestamps, and lists everything added |
| Journal.UpsertTellsLatestError | libs/hypervisor-hcs/src/journal.rs:452-462 | an upsert changes only the entry of that kind and identity, which tells the latest error |
| Journal.UpsertInventsNothing | libs/hypervisor-hcs/src/journal.rs:452-462 | after an upsert a kind and identity is listed only if it was before or is the one added |
| Journal.MergeEntries | libs/hypervisor-hcs/src/journal.rs:452-462 | the update-or-push loop computes the merged inventory |
| Journal.SessionJournal.PutAbandoned | libs/hypervisor-hcs/src/journal.rs:445-480 | the row becomes its merge with the added entries, one per kind and identity; the other rows stay |
| Journal.SessionJournal.HasAbandoned | libs/hypervisor-hcs/src/journal.rs:532-549 | answers whether any row remains |
| Journal.SessionJournal.AllVms | libs/hypervisor-hcs/src/journal.rs:403-427 | lists every VM with a record once |
| Ownership.LaunchedInv | libs/hypervisor-hcs/src/vm.rs:1095-1108 | the intent record alone establishes the invariant, before any resource exists |
| Ownership.IntentTells | libs/hypervisor-hcs/src/vm.rs:1354-1390 | the intent record names every resource as planned, with the retention asked for and no identity, so it claims nothing |
| Ownership.PublicationTells | libs/hypervisor-hcs/src/vm.rs:409-424 | publication marks the record and every disk and acknowledges the initialisations asked for; states, identities, origins and retentions stay |
| Ownership.ActionKeepsLocal | libs/hypervisor-hcs/src/vm.rs:461-592 | every journal write and every external effect of launch, cleanup, close and drop keeps the durable record truthful: removed means gone, abandoned means listed, complete means all removed |
| Ownership.ActionKeepsScene | libs/hypervisor-hcs/src/vm.rs:968-1019 | every action also keeps the file facts: recorded and guarded identities are of files this launch made, and inside a window the path still names that file |
| Ownership.InventoryIsComplete | libs/hypervisor-hcs/src/vm.rs:816-934 | the inventory written before a record is given up lists every resource not removed and keeps every earlier entry |
| Ownership.InventoryTellsCause | libs/hypervisor-hcs/src/vm.rs:816-934 | each inventory entry written when giving up tells the first failure of that resource in the pass or, if there is none, that the attempts are used up |
| Ownership.AbandonKeepsLocal | libs/hypervisor-hcs/src/vm.rs:816-934 | giving up after the inventory is written keeps the invariant and completes the record |
| Ownership.UnlinkDeletesOnlyOwn | libs/hypervisor-hcs/src/vm.rs:1002-1018 | undisturbed since the comparison, the unlink of the disk hook deletes at most the file of the recorded identity at the recorded path, made by this launch and not kept |
| Ownership.SweepDeletesOnlyOwn | libs/hypervisor-hcs/src/vm.rs:228-259 | so does the unlink of the rollback, for the identity it guards |
| Ownership.DiskReportIsTrue | libs/hypervisor-hcs/src/vm.rs:968-1019 | a disk reported done was never made, was there before the launch, was published as persistent, or has nothing at its path any more; one reported failed still has a file there |
| Ownership.OthersKeepFiles | libs/hypervisor-hcs/src/vm.rs:208-261 | whatever others do to files outside the two windows keeps the file facts of a launch in progress |
| Ownership.FinishedIsSettled | libs/hypervisor-hcs/src/vm.rs:85-155 | a terminal record without inventory row, or no record and no row, means nothing of the VM is up |
| Ownership.TerminalRecordMayGo | libs/hypervisor-hcs/src/vm.rs:85-155 | dropping a terminal record loses track of nothing |
| Sessions.StepKeepsInv | libs/hypervisor-hcs/src/vm.rs:85-155 | launch, act, crash, open stale, recover, close, delete database and unrestricted outsider steps all keep the system invariant |
| Sessions.OwnershipSurvives | libs/hypervisor-hcs/src/vm.rs:1060-1335 | in every state of every run each compute system and network still up is named by a record that does not say removed, or by an inventory entry of its exact identity, in a database that still exists |
| Sessions.IdentityRefusalIsUnreachable | libs/hypervisor-hcs/src/vm.rs:968-1019 | no disk that reaches the removal hook lacks a recorded identity unless it is still planned |
| Sessions.DoneLeavesNothingOwed | libs/hypervisor-hcs/src/vm.rs:968-1019 | in every run, a step that notes a disk as done leaves no file at its path, unless the disk was never made, was there before the launch, or was published as persistent |
| Sessions.AbandonedIsListed | libs/hypervisor-hcs/src/vm.rs:816-934 | at every crash point an abandoned resource has an inventory entry of its kind and identity, a complete record has everything removed, and entries are distinct |
| Sessions.StepIsMonotone | libs/hypervisor-hcs/src/vm.rs:746-810 | no step turns a removed resource back or changes an inventory entry's first timestamp |
| Sessions.RemovedIsNeverLeft | libs/hypervisor-hcs/src/vm.rs:746-810 | over any stretch of any run a removed resource stays removed while its record exists |
| Sessions.FirstTimestampIsKept | libs/hypervisor-hcs/src/journal.rs:445-480 | over any stretch of any run every inventory entry keeps its place and first timestamp while the row exists |
| Sessions.AtMostTwoFailingPasses | libs/hypervisor-hcs/src/journal.rs:36 | however often a VM is closed, dropped or recovered, at most two cleanup passes return a cleanup error |
| Deletion.StepKeepsFiles | libs/hypervisor-hcs/src/vm.rs:208-261 | every step of any process, and of outsiders who stay out of the windows, keeps the file facts of every launch |
| Deletion.DeletedFileWasCaptured | libs/hypervisor-hcs/src/vm.rs:968-1019 | in every run in which outsiders stay out of the windows, a step that deletes a file acts for the launch that made it, under an identity that launch captured in its record or guard, and never on a kept file |
| Deletion.ForeignAndKeptFilesSurvive | libs/hypervisor-hcs/src/vm.rs:409-424 | over any stretch of such a run, files Jyth did not make, and persistent disks once the launch that made them has published them, are never deleted |
| Deletion.SafeExactlyOutsideWindows | libs/hypervisor-hcs/src/vm.rs:1002-1009 | at any moment of such a run, a foreign file put at a path survives every continuation exactly when no launch is between creating that path and reading its identity, or between comparing it and unlinking it |
| Deletion.PutWhereCreatedIsDeleted | libs/hypervisor-hcs/src/vm.rs:1493-1559 | whatever is at a path just created has a continuation in which it is taken for the new disk and the rollback deletes it |
| Deletion.PutWhereComparedIsDeleted | libs/hypervisor-hcs/src/vm.rs:1002-1009 | whatever is at a path just compared has a continuation in which it is deleted |
| Deletion.TakenWhereComparedIsHarmful | libs/hypervisor-hcs/src/vm.rs:1002-1009 | taking the compared file away has a continuation in which another launch creates its disk there and loses it |
| Deletion.WindowsOccur | libs/hypervisor-hcs/src/vm.rs:1493-1559 | from any initial state runs lead into both windows, for any free path |
| Claims.SurvivesExactlyUnclaimed | libs/hypervisor-hcs/src/vm.rs:968-1019 | at any moment of such a run, any file seen so far survives every continuation exactly when it is not deleted yet and no launch claims it: none holds it in its guard or at the launch step that made or identified it, and no record lists it as deletable and neither removed nor given up |
| Claims.ReliedOnSurvivesExactlyUnclaimed | libs/hypervisor-hcs/src/vm.rs:1434-1595 | so a file that a record calls pre-existing, or published as persistent, is safe exactly when the launch that made it, if any did, claims it no more; foreign and kept files are never claimed |
| Claims.ClaimsOnlyOwn | libs/hypervisor-hcs/src/vm.rs:968-1019 | only the launch that made a file claims it, and not once it has published it as persistent |
| Claims.StepClaimsNothing | libs/hypervisor-hcs/src/vm.rs:208-261 | a file nobody claims is not claimed nor deleted by any step of anyone |
| Claims.ClaimantDeletes | libs/hypervisor-hcs/src/vm.rs:85-155 | from any state in which a launch claims a file, a continuation by crash, recovery or rollback deletes it, wherever the file is and whatever window others are in, and the records of the other VMs stay as they were |
| Claims.PublishedDiskIsLost | libs/hypervisor-hcs/src/vm.rs:968-1019 | a run in which a launch reuses a crashed launch's file, publishes it as its persistent disk, and recovery of the first deletes it |
| Cleanup.ReachesKeepsScene | libs/hypervisor-hcs/src/vm.rs:461-592 | whatever the code reaches by protocol actions, and steps of others on files outside the windows, satisfies the invariant |
| Cleanup.ReachesKeepsLocal | libs/hypervisor-hcs/src/vm.rs:461-592 | the same for the durable half alone |
| Cleanup.LeftoversCount | libs/hypervisor-hcs/src/vm.rs:816-934 | one inventory entry per resource not removed |
| Cleanup.CollectLeftovers | libs/hypervisor-hcs/src/vm.rs:816-934 | the collecting loop folds exactly the unremoved resources into the earlier entries and counts them |
| Cleanup.Host.CheckDiskFile | libs/hypervisor-hcs/src/vm.rs:968-1008 | which disks are done without a look, absent, or failed is said in fields of the record and the answers of the host; otherwise the disk is one its launch made and does not keep, and the file at its path has the recorded identity |
| Cleanup.Host.RemoveByHost | libs/hypervisor-hcs/src/vm.rs:487-534 | removing a compute system or network is a protocol step recorded as what the host answered; unless it failed the system or network is gone |
| Cleanup.Host.RemoveDiskAt | libs/hypervisor-hcs/src/vm.rs:536-565 | with others acting before the comparison and before the unlink, the outcome is the one the record and the answers call for: a disk its launch made and does not keep is done only when its file is gone; nothing goes but that file and files other launches made |
| Cleanup.Host.ApplyOutcome | libs/hypervisor-hcs/src/vm.rs:746-810 | the counter of that outcome moves and no other, a failure is remembered exactly when the hook failed, and the record moves to removed or removal-failed |
| Cleanup.Host.AbandonRemaining | libs/hypervisor-hcs/src/vm.rs:816-934 | on success the record is complete and the abandoned count grew by the unremoved resources; nothing of other VMs changes |
| Cleanup.Host.OpenRecord | libs/hypervisor-hcs/src/vm.rs:476-485 | a pass counts its attempt and marks the record pending before touching anything |
| Cleanup.Host.WalkResources | libs/hypervisor-hcs/src/vm.rs:487-565 | the walk handles each resource not removed exactly once, in record order, with the outcome its answer calls for |
| Cleanup.Host.Settle | libs/hypervisor-hcs/src/vm.rs:567-574 | a clean walk ends with record and inventory row gone |
| Cleanup.Host.Conclude | libs/hypervisor-hcs/src/vm.rs:567-592 | a clean walk ends with record and inventory row gone; a failing one below the limit keeps the record and reports its failures; at the limit it is given up, and as many abandoned are counted as were not removed |
| Cleanup.Host.WalkAndConclude | libs/hypervisor-hcs/src/vm.rs:487-592 | a pass succeeds exactly when every resource not removed is, or the limit is reached; what it counts and leaves is told by the record and the answers |
| Cleanup.Host.CleanupRecord | libs/hypervisor-hcs/src/vm.rs:461-592 | barring journal errors, the counts grow by the resources not removed at the start, each by its outcome; a pass that returns normally leaves the record gone, or complete at the last attempt; a failing pass leaves one attempt more, below the limit; with a journal that accepts writes these are the only ends |
| Provisioning.TableIsFollowedExactly | libs/hypervisor-hcs/src/vm.rs:1417-1453 | the code departs from the documented table exactly for an existing file, a persistent disk and the policy that rejects existing files |
| Provisioning.ClassifyOrCreate | libs/hypervisor-hcs/src/vm.rs:1493-1515 | a missing file is created, new to every history; a file found, or one that appears during the create, is reused only under the keep policy and if valid; undisturbed, it succeeds exactly when policy and host allow |
| Provisioning.AcquireFile | libs/hypervisor-hcs/src/vm.rs:1493-1559 | a file reused is never guarded as made here; a file created is guarded under the identity it was made with; undisturbed, which of the two it is and what it leaves are determined |
| Provisioning.MaterializeDisk | libs/hypervisor-hcs/src/vm.rs:1434-1595 | a materialized disk's record carries an identity: a pre-existing file, found only under the keep policy, is not owned nor initialised and becomes persistent; a created one carries the fresh identity of the file this launch made for that disk; the other disks are untouched |
| Provisioning.SweepOne | libs/hypervisor-hcs/src/vm.rs:228-259 | with others acting before the comparison and before the unlink, nothing goes but the file of the guarded identity and files other launches made, and if it can be read and unlinked it does go |
| Provisioning.SweepGuard | libs/hypervisor-hcs/src/vm.rs:208-261 | over the whole rollback nothing goes but files of guarded identities and files other launches made; undisturbed and unhindered, no guarded file stays |
| Provisioning.DropGuard | libs/hypervisor-hcs/src/vm.rs:177-261 | dropping an unfinished launch makes one cleanup pass and sweeps the files it guards, by protocol steps, and ends idle: the record is gone, given up, or has one attempt more |
| Provisioning.ProvisionNetwork | libs/hypervisor-hcs/src/vm.rs:1130-1159 | on success the network is up, journaled as created, and nothing else in the journal changed; it succeeds if host and journal let it |
| Provisioning.ProvisionDisks | libs/hypervisor-hcs/src/vm.rs:1183-1206 | on success every disk is journaled as created with its identity; undisturbed, it succeeds if every disk can be acquired in turn |
| Provisioning.ProvisionCompute | libs/hypervisor-hcs/src/vm.rs:1303-1307 | on success the compute system is up and journaled; it succeeds if host and journal let it |
| Provisioning.Provision | libs/hypervisor-hcs/src/vm.rs:1130-1307 | network, disks and compute system are made in this order; success means all are up and journaled, and undisturbed it follows when the host lets each be made |
| Provisioning.JournalIntent | libs/hypervisor-hcs/src/vm.rs:1095-1108 | the intent record starts a scene that satisfies the invariant |
| Provisioning.RollBack | libs/hypervisor-hcs/src/vm.rs:177-261 | a failed launch leaves no record or one with a single attempt counted |
| Provisioning.LaunchVm | libs/hypervisor-hcs/src/vm.rs:1060-1335 | a launch, at whatever step it fails, keeps the invariant and ends running, with everything up and journaled, or rolled back, with no record or one attempt counted; undisturbed, it runs when the host lets everything be made |
| Provisioning.RecoverRecord | libs/hypervisor-hcs/src/vm.rs:85-155 | a complete record is dropped; any other gets one pass, which handles every resource not removed and leaves the record gone, given up, or with one attempt and one failing pass more; nothing of another VM changes |
| Provisioning.RecoverAll | libs/hypervisor-hcs/src/vm.rs:85-155 | each listed record is dealt with so, once, and the counts add up |
| Provisioning.RecoverSession | libs/hypervisor-hcs/src/vm.rs:85-155 | every record of the session is dealt with so, once, and the counts add up to the resources not removed; the session is finished, and may be deleted, exactly when every record is complete and no inventory is left; then none of its systems or networks is up |
| Dispatch.PushFrontLaneOrdered | libs/guest-client/src/transport.rs:203-243 | putting a request back at the head keeps each lane in order of arrival |
| Dispatch.WorkBehindHead | libs/guest-client/src/transport.rs:203-258 | a queue whose head cannot start holds startable work exactly when a shutdown is queued, or the other lane has a permit and a request |
| Dispatch.LostRound | libs/guest-client/src/transport.rs:203-243 | a dispatcher on which a round loses the race and leaves a startable shutdown waiting |
| Dispatch.UnexpiredMembers | libs/guest-client/src/transport.rs:267-279 | a sweep keeps exactly the requests whose deadline has not passed |
| Dispatch.UnexpiredOrder | libs/guest-client/src/transport.rs:267-279 | the survivors keep their order and stay distinct |
| Dispatch.SweepQueue | libs/guest-client/src/transport.rs:267-279 | the popping loop answers exactly the expired requests and keeps the others in order |
| Dispatch.EnqueuedIsAccounted | libs/guest-client/src/transport.rs:148-194 | receiving keeps every request in exactly one place |
| Dispatch.SpawnedIsAccounted | libs/guest-client/src/transport.rs:203-243 | so does starting one |
| Dispatch.SpawnedIsFair | libs/guest-client/src/transport.rs:203-243 | and each lane still starts in order of arrival, shutdowns excepted |
| Dispatch.RejectedKeepsBooks | libs/guest-client/src/transport.rs:203-243 | so does refusing one because the semaphore is closed |
| Dispatch.PutBackKeepsBooks | libs/guest-client/src/transport.rs:203-243 | so does putting one back after a lost race |
| Dispatch.SweptIsAccounted | libs/guest-client/src/transport.rs:267-279 | so does the deadline sweep |
| Dispatch.EndedKeepsBooks | libs/guest-client/src/transport.rs:293-314 | so does a reply |
| Dispatch.StoppedKeepsBooks | libs/guest-client/src/transport.rs:281-290 | stopping answers or aborts every request received, each once |
| Dispatch.StoppedTells | libs/guest-client/src/transport.rs:281-290 | after stopping, a request never started ran out of time or is told that it was cancelled; without outside permit holders no shutdown received in time is among them |
| Dispatch.FirstStartableMayStart | libs/guest-client/src/transport.rs:245-258 | the first startable request overtakes nothing of its own lane unless it is a shutdown |
| Dispatch.Dispatcher.NextStartIndex | libs/guest-client/src/transport.rs:245-258 | the first startable request, or none if nothing is startable |
| Dispatch.Dispatcher.NextDeadline | libs/guest-client/src/transport.rs:260-265 | the moment the next queued request expires: none expires earlier, one does then |
| Dispatch.Dispatcher.ExpirePending | libs/guest-client/src/transport.rs:267-279 | exactly the expired requests leave the queue, and each is told so; permits and order are kept |
| Dispatch.Dispatcher.StartAt | libs/guest-client/src/transport.rs:210-241 | a request of a closed lane is told so; one with a permit, and any shutdown, runs and takes its permit if there is one; any other is put back at the head; nothing else changes |
| Dispatch.Dispatcher.StartNext | libs/guest-client/src/transport.rs:203-243 | one turn of the loop, with the permits changing between scan and acquire, shortens the queue, finds nothing startable, or loses a race that needs an outside holder |
| Dispatch.Dispatcher.StartReady | libs/guest-client/src/transport.rs:203-243 | terminates; starts nothing expired at its sweep; every request that left the queue had run out of time, runs, or found its lane closed; leaves nothing startable and no shutdown waiting unless it lost a race, which needs an outside permit holder; after a lost race, work is left exactly when a shutdown is queued or the other lane has a permit and a request; permits balance throughout |
| Dispatch.Dispatcher.Finish | libs/guest-client/src/transport.rs:293-314 | a finished task returns its permit if it held one, so a shutdown that started without one never inflates a lane |
| Dispatch.Dispatcher.Turn | libs/guest-client/src/transport.rs:148-194 | starts what may start, then receives one event into the books, sees a task end, or sweeps the queue; it stops the loop exactly when it should |
| Dispatch.Dispatcher.Loop | libs/guest-client/src/transport.rs:148-194 | the loop receives every request up to the first event that stops it, and what the books tell stays true |
| Dispatch.Dispatcher.Stop | libs/guest-client/src/transport.rs:281-290 | every received request is answered or aborted: the queued ones are told, the running ones aborted; all permits are back |
| Dispatch.Dispatcher.Run | libs/guest-client/src/transport.rs:148-194 | after any sequence of events every request that arrived is answered or aborted, exactly once, permits are back, and starts were in lane order; one never started ran out of time or is told that it was cancelled, and without outside permit holders no shutdown is among the latter |
| Capture.EndUnique | libs/guest-client/src/process.rs:904-950 | a stream has one logical end, whatever the end mode |
| Capture.EndMonotone | libs/guest-client/src/process.rs:904-950 | more bytes never move the end backwards, and move it only if it was not reached |
| Capture.CaptureUnique | libs/guest-client/src/process.rs:904-981 | the stream and the options determine the captured result |
| Capture.FindDelimiterEnd | libs/guest-client/src/process.rs:1007-1033 | finds the end of the first delimiter, across the boundary too, or there is none |
| Capture.Accumulator.Append | libs/guest-client/src/process.rs:952-981 | appends up to the limit if memory allows; an error changes nothing |
| Capture.Accumulator.Push | libs/guest-client/src/process.rs:904-950 | after any pushes the buffer is what the stream so far determines |
| Capture.FinishedIsCapture | libs/guest-client/src/process.rs:904-981 | an accumulator at the end of the stream holds its capture |
| Capture.DrainCapture | libs/guest-client/src/direct.rs:365-380 | draining chunks gives the capture of their concatenation, which fits the memory, or an allocation failure for a size the capture needs |
| Capture.ChunkingIndependence | libs/guest-client/src/direct.rs:365-380 | two ways to cut one stream into chunks give the same result, a prefix of the stream within the limit |
| Runner.TerminalIsForever | libs/guest-client/src/process.rs:551-560 | no sequence of writes changes a terminal state |
| Runner.FirstTerminalStays | libs/guest-client/src/process.rs:551-560 | until then the observer sees each write: it ends with the first terminal one, or the last |
| Runner.MergeTells | libs/guest-client/src/process.rs:400-406 | merging two cleanup errors loses neither |
| Runner.CloseFailureIsTold | libs/guest-client/src/direct.rs:132-215 | whichever error wins, it tells the failure to close |
| Runner.FailureIsReported | libs/guest-client/src/direct.rs:132-215 | which failure is reported, for every way a process can end: the first drain to fail if it was seen before the timer or the cancellation, or after any wait; otherwise that of the ending, or of the close after a wait |
| Runner.FailureTellsCleanup | libs/guest-client/src/direct.rs:132-215 | what an error tells about the cleanup begins with the failed wait or the failed close, and there is nothing to tell when neither failed and every drain ended well |
| Runner.LastCapturedIsRecorded | libs/guest-client/src/direct.rs:347-356 | what is retained per stream is the capture of what was delivered on it |
| Runner.FinishDrains | libs/guest-client/src/direct.rs:316-345 | joins every remaining drain and reports the first that failed |
| Runner.Select | libs/guest-client/src/direct.rs:253-277 | drains joined while waiting all succeeded but the one reported, the last joined |
| Runner.Retain | libs/guest-client/src/direct.rs:347-356 | each stream keeps the last captured bytes, the other is untouched |
| Runner.Supervise | libs/guest-client/src/direct.rs:82-215 | closes once, joins every drain, succeeds exactly when wait, exit, close and drains all did, and records output only then; the error it returns is the one the script calls for, telling the rest |
| Runner.RunDirectProcess | libs/guest-client/src/direct.rs:22-215 | the observer is shown starting, running if it was, and exactly the returned result (an earlier terminal state is kept); cancelled or failing to spawn it returns that; otherwise close happens once, every drain is joined, the error is the one the script calls for, and output is recorded only on success |
| Quoting.QuoteArg | libs/hypervisor-hcs/src/hyperv.rs:114-147 | the nested loops compute the escaping that the reader undoes; an argument is left bare exactly when it is not empty and has no space, tab, newline, vertical tab or quote |
| Quoting.ReadEscaped | libs/hypervisor-hcs/src/hyperv.rs:114-147 | reading an escaped body gives the argument back, for every run of backslashes before quotes and before the end |
| Quoting.ReadBare | libs/hypervisor-hcs/src/hyperv.rs:114-147 | an argument left bare reads as itself |
| Quoting.QuotingRoundTrip | libs/hypervisor-hcs/src/hyperv.rs:114-147 | splitting the space-joined quoted arguments gives the list back, under both documented readings of doubled quotes |
| OciReference.ValidateComponent | libs/image-core/src/oci_reference.rs:392-433 | the greedy scanner accepts exactly the component grammar |
| OciReference.RepositoryParts | libs/image-core/src/oci_reference.rs:375-389 | a repository is exactly a slash-joined list of components of at most 255 bytes |
| OciReference.ValidateRepository | libs/image-core/src/oci_reference.rs:375-389 | accepts exactly the repositories; an error names the first bad component |
| OciReference.ValidateDigest | libs/image-core/src/oci_reference.rs:341-354 | accepts exactly sha256 digests of 64 and sha512 digests of 128 hexadecimal digits, and tells a missing colon and an unknown algorithm apart |
| OciReference.TagIsPattern | libs/image-core/src/oci_reference.rs:356-371 | a tag is one letter, digit or underscore and up to 127 more of these, dots or dashes |
| OciReference.Parse | libs/image-core/src/oci_reference.rs:105-201 | computes what the reference denotes; an error names the first part at fault: nothing there, the scheme, nothing after it, the digest, the tag, the repository |
| OciGrammar.DenotesExactly | libs/image-core/src/oci_reference.rs:105-201 | a text denotes a reference exactly when it is a spelling of it: an optional http or https scheme, an optional host, a repository, an optional tag and digest, with Docker Hub, `library/` and `latest` filled in where they are left out |
| OciGrammar.SpelledDenotes | libs/image-core/src/oci_reference.rs:105-201 | every spelling is accepted and read as it is meant |
| OciGrammar.AcceptedIsSpelled | libs/image-core/src/oci_reference.rs:105-201 | every accepted text is a spelling of what it denotes |
| OciReference.AcceptedIsWellFormed | libs/image-core/src/oci_reference.rs:105-201 | an accepted reference has a host, a valid repository, tag and digest, and the canonical string of its fields |
| OciReference.CanonicalRoundTrip | libs/image-core/src/oci_reference.rs:438-454 | reparsing the canonical string gives the same host, repository, tag, digest and canonical string |
| OciReference.CanonicalEquality | libs/image-core/src/oci_reference.rs:486-490 | canonical strings agree exactly when host, repository, tag and digest agree |
| Framing.LittleEndianRoundTrip | libs/com/src/framing.rs:76-85 | a length prefix reads back |
| Framing.LowestFirst | libs/com/src/framing.rs:76-85 | the bytes of a length prefix are its digits to base 256, the lowest first |
| Framing.WriteFrame | libs/com/src/framing.rs:45-85 | a frame within the limit is appended whole, its length in four bytes lowest first; a rejected payload writes no byte |
| Framing.ReadFrame | libs/com/src/framing.rs:102-120 | consumes exactly what the specification of one read says, in every error case |
| Framing.CutStream | libs/com/src/framing.rs:102-120 | a stream cut anywhere reads as the whole frames before the cut, then truncation |
| Framing.StreamRoundTrip | libs/com/src/framing.rs:76-120 | reading back any accepted frames gives the same sequence |
| Framing.SmallerReader | libs/com/src/framing.rs:102-120 | a reader with a smaller limit gets the frames before the first too large one, then that error |
| GuestPath.Parse | libs/boot-image/src/overlay.rs:40-131 | the component loop computes what the path denotes, with the first fault's reason |
| GuestPath.DenotesExactly | libs/boot-image/src/overlay.rs:40-131 | a raw path denotes a path exactly when it writes it: components that are neither empty nor `..`, separated by either slash, at most one slash in front, no NUL byte, no drive letter first, and the path all of them but the dots |
| GuestPath.AcceptedWhen | libs/boot-image/src/overlay.rs:40-131 | exactly which raw paths are accepted, in terms of their components |
| GuestPath.DenotedIsCanonical | libs/boot-image/src/overlay.rs:40-131 | an accepted path is canonical, with the components of the raw path but for the dots |
| GuestPath.CanonicalDenotesItself | libs/boot-image/src/overlay.rs:40-131 | canonical paths are fixed points of parsing |
| GuestPath.UnreservedSparesInit | libs/boot-image/src/overlay.rs:137-139 | an unreserved path is neither /init, beneath it nor above it |
| Overlay.RegisterAll | libs/boot-image/src/overlay.rs:276-304 | the registering loop gathers exactly the nodes of the entries, or refuses entries that form no tree with a fault they have |
| Overlay.HasFileAncestor | libs/boot-image/src/overlay.rs:308-319 | the walk to the root finds a file ancestor exactly when there is one |
| Overlay.AncestorsDecideTree | libs/boot-image/src/overlay.rs:306-319 | no registered path has a file ancestor exactly when the nodes form a tree |
| Overlay.ValidateEntries | libs/boot-image/src/overlay.rs:276-327 | succeeds exactly when the entries form a tree of unreserved canonical paths; the two sorted lists hold exactly the files and directories; a refusal names a real fault |
| Overlay.AscendingUnique | libs/boot-image/src/overlay.rs:321-324 | a strictly sorted list is determined by its members |
| Overlay.AncestorsComeFirst | libs/boot-image/src/overlay.rs:474 | among the directories and then the files of a validated overlay, every ancestor of a node is a directory and comes before it |
| Overlay.OrderDoesNotMatter | libs/boot-image/src/overlay.rs:276-327 | any permutation of the entries is accepted or refused alike and gives the same lists |
| Overlay.InitFits | libs/boot-image/src/assembly.rs:47-57 | a validated overlay is still a tree with /init added |
| Overlay.AppendInit | libs/boot-image/src/assembly.rs:49-57 | pushing /init and sorting again gives the sorted lists of that tree |
| Archive.StripTrailer | libs/boot-image/src/overlay.rs:419-465 | gives the body of a complete archive and refuses everything else |
| Archive.CachedIsValid | libs/boot-image/src/overlay.rs:601-664 | accepts exactly the files of the expected size that the trailer stripper accepts |
| Archive.TailIsPadding | libs/boot-image/src/overlay.rs:646-657 | whatever the read sizes, accepts exactly zero padding |
| Archive.BodyThen | libs/boot-image/src/overlay.rs:419-465 | the body of an archive before any other bytes reads as its entries and then the rest |
| Archive.MergeRootfs | libs/boot-image/src/overlay.rs:530-536 | both bodies and one trailer, or a refusal if either archive is incomplete |
| Archive.MergeParses | libs/boot-image/src/overlay.rs:530-536 | a merge is a complete archive with the base's entries and then the overlay's |
| Initramfs.MergeMeaning | libs/boot-image/src/overlay.rs:526-536 | merging succeeds exactly on two complete archives, and the result unpacks to the tree of the base with the overlay unpacked onto it |
| Initramfs.UnpackConcat | libs/boot-image/src/overlay.rs:526-529 | unpacking entries one after the other is unpacking them together |
| Initramfs.StandsExactly | libs/boot-image/src/overlay.rs:526-529 | of entries with distinct names whose ancestors come first and are directories, on a tree without links above them but those they replace by directories, one stands after unpacking exactly when every ancestor is a directory of the tree or of the entries and no directory that is not empty is in its place; paths not named stay as they were |
| Initramfs.TopLevelStandsExactly | libs/boot-image/src/overlay.rs:586-596 | whatever links there are and wherever they lead, a file at the top stands exactly when no directory that is not empty is there at its turn and no later entry is led to it |
| Initramfs.BlockedStays | libs/boot-image/src/overlay.rs:526-529 | an entry that would replace a directory that is not empty leaves it as it was |
| Archive.MergeAssociates | libs/boot-image/src/overlay.rs:530-536 | merging layers in either grouping gives the same bytes |
| Cpio.DecodeIsLocal | libs/boot-image/src/overlay.rs:427-431 | what follows an entry does not change how it reads |
| Cpio.EntryRoundTrip | libs/boot-image/src/overlay.rs:475-519 | an encoded entry decodes to itself, whatever follows |
| Cpio.EncodedIsBody | libs/boot-image/src/overlay.rs:475-519 | an encoded entry before any bytes parses as that entry and then the rest |
| Cpio.TrailerCloses | libs/boot-image/src/overlay.rs:521-522 | an encoded trailer is a complete archive of no entries |
| Cpio.WrittenTrailerCloses | libs/boot-image/src/overlay.rs:521-522 | the trailer actually written closes an archive |
| Emission.OverlayToCpio | libs/boot-image/src/overlay.rs:467-524 | refuses exactly when a file exceeds 32 bits of size; otherwise writes directories, then files, numbered on, then the trailer |
| Emission.EmittedReadsBack | libs/boot-image/src/overlay.rs:467-524 | parsing the emitted archive gives one entry per directory and file, in order |
| Emission.EntryIsEmittable | libs/boot-image/src/overlay.rs:475-519 | the entry of a validated node is one the format can hold and is not a trailer |
| Emission.EntryTellsNode | libs/boot-image/src/overlay.rs:475-519 | the entry of a node carries its path, its bytes, its kind, its nine mode bits and nothing above them, its sizes and its link count; every other field but the inode is zero |
| Emission.InodesAreApart | libs/boot-image/src/overlay.rs:367-371 | two overlay entries share an inode exactly when a whole 32-bit wrap-around lies between them |
| Writers.StepKeepsWorld | libs/boot-image/src/cache.rs:133-147 | every step of every writer, crashes included, keeps the facts of all writers and files |
| Writers.AlwaysComplete | libs/boot-image/src/cache.rs:133-147 | in every run of any number of writers each name is at every moment absent, as at the start, or some writer's complete content |
| Writers.DecidedWasThere | libs/boot-image/src/cache.rs:374-412 | a writer that won a rename or saw a match did so at a moment when its complete content was in place |
| Writers.ReturnedMeans | libs/boot-image/src/cache.rs:374-434 | a writer that returns has tried at most 6 renames and 4 validations and left no temporary file unless its removal failed; success means its content was in place, refusal means an error that is not contention or all attempts used up |
| Writers.RunIsAllowed | libs/boot-image/src/cache.rs:354-434 | over any stretch of any run a name keeps its content, loses it, or gets an offered one |
| Publish.CacheDirectory.PublishTemp | libs/boot-image/src/cache.rs:354-434 | for any answers and any steps of other writers, the retries are steps of the writer protocol and end as the answers tell; success means the content was in place during the call |
| Publish.CacheDirectory.Contend | libs/boot-image/src/cache.rs:387-412 | the retry loop ends with a rename won, a match seen, an error or all attempts used, each at its place in the protocol |
| Publish.CacheDirectory.ReplaceStale | libs/boot-image/src/cache.rs:420-427 | removing the stale file and renaming once more publishes the content or leaves the temporary file to be removed |
| Publish.FavouredIsPublished | libs/boot-image/src/cache.rs:374-434 | a call whose answers hold a rename that goes through, with only contention before it, publishes |
| Publish.StepKeepsFaith | libs/boot-image/src/cache.rs:374-434 | at every place of the protocol, what a writer has met is what was answered, in order |
| Publish.CacheDirectory.AtomicWrite | libs/boot-image/src/cache.rs:133-147 | the whole write is a run of one more writer among the others; success means its content was in place during the call, and from then on the name is absent or holds an offered content; the last answer decides after contention only, so a rename that goes through publishes; undisturbed, what is left of the files is determined |
| Assembly.KeyTellsInputs | libs/boot-image/src/overlay.rs:546-584 | the key determines the base bytes, the files and the directories |
| Assembly.EveryMomentIsHonest | libs/boot-image/src/assembly.rs:101-103 | at every moment of every run of writers, crashes included, every completion record names the image its key stands for |
| Assembly.LookUp | libs/boot-image/src/assembly.rs:78-91 | a hit means no read failed and the file held exactly the image of the key, even if it started out corrupt; undisturbed, it is a hit exactly when the cache is complete, reads as an archive and no read fails |
| Assembly.Store | libs/boot-image/src/assembly.rs:93-103 | the image is in place before its record, and the record names it; undisturbed, it fails only if a publication or the reading back does |
| Assembly.PrepareInner | libs/boot-image/src/assembly.rs:62-109 | hit or rebuilt, the file served held exactly what a rebuild of the current inputs gives, and from then on is absent or offered; undisturbed, it is a hit exactly when the cache is complete and readable, a rebuild leaves it complete, and it fails only for a failing read, build or publication |
| BootImage.BuildRootfs | libs/boot-image/src/assembly.rs:93-94 | emitting and merging compute the image |
| BootImage.ImageMeaning | libs/boot-image/src/overlay.rs:467-536 | an image exists exactly when the base is complete and every file fits; it is a complete archive and unpacks to the base with the overlay unpacked onto it |
| BootImage.NodesPrevail | libs/boot-image/src/overlay.rs:467-536 | on a base without links above the nodes but those the overlay replaces by directories, a validated node stands in the unpacked tree exactly when each of its ancestors is a directory of base or overlay and no directory that is not empty is in its place; every path without a node is the base's |
| BootImage.InitPrevails | libs/boot-image/src/overlay.rs:586-596 | on such a base /init in the unpacked tree is the given binary, an executable file, unless the base holds a directory there that is not empty, which then stays |
| BootImage.InitStandsExactly | libs/boot-image/src/overlay.rs:586-596 | on any base, the entry of /init stands exactly when no directory that is not empty is there at its turn and no later entry is led there |
| BootExamples.TakenInitExample | libs/boot-image/src/overlay.rs:586-596 | the bytes of a base on which /init stays a directory, with no entries at all |
| BootExamples.LedInitExample | libs/boot-image/src/overlay.rs:586-596 | the bytes of a base and an accepted entry z/init that a link of the base leads to /init, which then holds the caller's data |
| BootExamples.OrphanExample | libs/boot-image/src/overlay.rs:467-524 | the bytes of a base and an accepted entry a/b that is not in the unpacked tree |
| BootImage.PathsAreFixed | libs/boot-image/src/overlay.rs:276-327 | the paths of a validated overlay, /init included, are canonical and parse to themselves |
| BootImage.EqualKeysEqualImages | libs/boot-image/src/overlay.rs:546-584 | equal keys come from equal inputs, so they stand for one image |
| BootImage.PrepareBootArtifacts | libs/boot-image/src/assembly.rs:39-60 | rejects exactly the entries that form no tree, before touching the cache; otherwise the file served held the image of the entries and /init, and is now absent or holds it; undisturbed, it fails only for a failing read, build or publication |
| BootImage.ExactForever | libs/boot-image/src/assembly.rs:101-109 | over any further run of writers that file stays absent or exact |

## Left out

- Win32, HCS and HNS calls, named pipes, PowerShell: outcomes of removal and creation are any of done, absent, failed. Which reports count as absent is string matching and not modelled.
- Async scheduling and cancellation tokens: a launch or pass may stop between any two effects. Cancellation in the middle of one foreign call is not modelled, nor the reference counting of HCS operations.
- Disk leaks: a file created just before a crash, before its identity is journaled, is left behind by the code.
- Single writes to the journal tables, to a lifecycle and to the path registry: they do what their bodies say, and appear here through what cleanup, recovery, the runner and validation prove of them.
- Journal decoding and schema errors, ACLs, VM configuration JSON, SCSI slots, HNS details.
- Cleanup.Host.RemoveByHost: whether the host removes the resource, finds none or fails is a parameter.
- Cleanup.Host.RemoveDiskAt: others stay out of the windows while this method runs; what they can do inside them is said for whole runs in `Deletion`.
- Provisioning.SweepOne: the same holds of others here.
- Provisioning.ClassifyOrCreate: the same holds of others here; whether a reused image is valid is a parameter.
- Provisioning.DropGuard: does not promise that the rollback succeeds, because every removal may fail; what is left stays named by the journal.
- Dispatch.Dispatcher.Run: does not promise that a request with a free permit is eventually started after a lost race; the source leaves that to the next event.
- Runner.RunDirectProcess: the best-effort close when a running process is dropped early is not modelled.
- Runner.Supervise: what a host-file route writes to its file is not modelled, only how its drain ends.
- Framing.WriteFrame: I/O errors of the stream are not modelled; they end the connection.
- GuestPath.Parse: paths are UTF-8 bytes, so a path that is not representable as a string does not occur.
- Cpio.EntryRoundTrip: the reader's check that names are UTF-8 and the 070702 variant with checksums are not modelled.
- Initramfs.StandsExactly: where a symbolic link above an entry leads is left to an arbitrary function; which nested entries stand when the tree has such links is not said. Other spellings of a name in the base (`./x`, `/x`) are other names, hard links share no content, and running out of memory while unpacking does not occur.
- BootImage.NodesPrevail: says nothing of a base with links above the nodes that the overlay does not replace, because there a node stands wherever its links lead.
- BootImage.InitPrevails: likewise; `BootImage.InitStandsExactly` covers such bases.
- Overlay.ValidateEntries: which of several file-ancestor conflicts is reported first is left open; the source reports the first in path order.
- Publish.CacheDirectory.PublishTemp: sleeping between attempts and creating the parent directory are not modelled.
- Assembly.PrepareInner: a failure does not say which read, write or build failed; disturbed, it may also be that another writer removed the file as stale.
- Assembly.LookUp: the image file is compared at one moment per read, as an open handle sees it.
- The run cache, gzip publication, building the init binary, OCI manifest URLs and their normalisation, image resolution and materialisation, the TCP transport and its authentication, the command-line tools.
