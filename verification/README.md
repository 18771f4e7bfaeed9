# Verified model of the file cloud

The repository is a small file cloud: clients upload and download files over TCP to one of several storage
nodes behind a balancer, all nodes share one storage folder, a transfer that is cut off resumes from the size of
its `.part` file, and who may touch which file is kept in one shared rules file. This project models its core in
Dafny and proves what it promises over every run. `dafny verify dfyconfig.toml` checks all of it.

## How it is modelled

- **State that the program updates in place is a class** (`Socket`, `WriteStream`, `Disk`, `Receiver`, `Storage`,
  `Target`, `PolicyStore`, `Chains`, `Meter`, `CountingStream`, `NodeRegistry`, `NodeMonitor`). Each has a `View()`
  (or `Files()`, `SlotOf(name)`), and each method equates the new view with a function of the old one. The lemmas
  are about those functions.
- **A run is any finite sequence of events.** Every step function is total: an event that is not possible in a state
  leaves it alone. A lemma that quantifies over event sequences therefore quantifies over every chunking, every
  pause, drain and flush schedule, every interleaving and every point of interruption or death.
- **A file is a byte sequence**, a socket is a byte queue with a flowing flag, a write stream is a backlog with a
  high-water mark, and a killed process leaves any part of its backlog on disk (`Torn`).
- **`events`, `fate`, `tries`, `hears` and the like are what the environment does.** They are arbitrary parameters;
  the code decides everything else.
- Integers are unbounded. The sizes and offsets of the program are far below the limit of exact integers in
  JavaScript. `subarray` with a negative index counts from the end, as in the program (`SubarrayIndex`).

| file | models |
|---|---|
| `Bytes`, `Sockets`, `Streams` | byte strings, the readable side of a connection, the disk and write streams |
| `Framing` | `readJsonLine` |
| `Receive`, `ReceiveSafety`, `ReceiveProgress` | `receiveBytes`, what every schedule of it keeps, and that it settles |
| `Exchange` | a header and then a body on one connection |
| `Throttle`, `ReceiveReports` | progress reports, `CountingStream`, and the reports of a receive run |
| `Names`, `FileLock` | `safeName` and the paths; the promise chains |
| `Policy`, `PolicyHistory`, `PolicyCluster` | the rules, permissions as a function of history, many processes on one rules file |
| `Upload`, `UploadRuns` | storage and `handleUpload`, every run of attempts |
| `UploadRaces`, `UploadRights` | requests in flight together: stale offsets, stale permissions |
| `Client`, `UploadLoop` | the client's upload loop and what it promises |
| `Download`, `DownloadLoop` | `handleDownload`, the client's download loop and what it promises |
| `Balancer`, `BalancerOptimality` | `NodeRegistry`, and how good a greedy choice is |
| `Monitor`, `Lifecycles`, `Dashboard` | the bounded window and live transfers of a node, the handlers behind them, the merged feed |

## Where the code does less than it says

In each of these the model follows the code, shows the failure, and states exactly when it happens.

- An empty remainder does not complete as long as no byte comes: `receiveBytes` settles only inside its data listener
  (`EmptyRemainderNeverResolves`, `CanResolveIff`). A client that sends exactly what it announces can therefore not
  upload an empty file, nor complete by resuming it a part file that is already whole, which a node leaves if it dies
  before the rename, although `flow.md` presents the size of the part file as all a retry needs; such a file is
  started over only if a STAT goes unanswered (`FullPartIsStuck`, `UploadLoop.SuccessPossibleIff`,
  `UploadLoop.SuccessEverPossibleIff`). A peer that sends a byte more completes either (`ConfirmedPossibleIff`,
  `ExtraBytesCompleteEmpty`).
- Resuming compares lengths, not contents (`MixedSourcesIff`, `UploadLoop.IntegrityIff`).
- The offset is checked before the file lock is taken. With one unchanged source, a restart and a resume that both
  pass the check can complete a file that begins with zeros (`RestartUnderResumeCorrupts`, `StaleCheckIff`).
- A node that stops between `rm` and `rename` has removed the old version already (`RemovedIff`,
  `RemovedByCleanTransfer`). No later upload of the new version whose STATs are answered brings either back
  (`RemovedForGood`); uploads of longer sources can put something under the name again (`VersionReturnsIff`).
- Permission is checked before the file lock is taken too: two users can upload one unclaimed name, and the second
  overwrites what the first by then owns (`UnclaimedNameIsOverwritten`). The check answers for the whole wait if and
  only if the name has a rule when it is made (`PromoterMayWriteIff`).
- The header limit depends on how the stream is cut (`AcceptedUnderEveryCutIff`).
- Bytes after a body that ends exactly at a chunk boundary are lost if nobody listens yet
  (`FlowingSocketLosesRest`, `RestSurvivesIff`, `RestKeptIff`).
- The lock around the rules file is not proof against a second waiter with an expired deadline
  (`ConfirmedClaimIsLost`, `OverlapLosesIff`), a reload that is not queued
  (`ConfirmedClaimIsReloadedAway`, `StrayReloadLosesUpdate`), or a death inside a save (`ConfirmedClaimIsForgotten`,
  `CrashInSaveForgetsEverything`). These are the three guards of `PolicyIsLinearizable`; the first lemma of each pair
  is a run from a fresh start, the second says exactly when an update is lost (by a broken lock: between two sections).
- A failed download can delete the old target, if and only if the client stops between its `rm` and its `rename`, or
  the file is announced as empty and there is no part file (`TargetLostIff`, `AnnouncedSizeLosesTargetIff`,
  `TargetEverLostIff`). After the first, the next answered attempt places the complete part file
  (`LostTargetReturns`). A client that sends what it announces never completes an empty file (`UploadsStayIntact`), so
  the second needs one that was sent a byte too many (`ExtraBytesCompleteEmpty`) or was put into the folder by other
  means, or a file that is being replaced while it is measured: `size()` then answers 0 (`HandleDownload`). A client
  that holds any part file takes that for the whole (`AnnouncedSizeIff`).
- The feed can miss the newest event if a node's clock steps back (`BackwardClockHidesNewest`, `FeedIsNewestIff`).
- The empty name and `.` share a part path under different lock keys, and an upload of `x` writes to the complete
  file `x.part` (`SameKeyIffSamePart`, `PartIsFinalIff`).
- Live transfers of two users can share a key if one name is the other, a colon and something without a separator
  (`KeysCollideIff`).

## Model

| member | source | states |
|---|---|---|
| Framing.IndexOf | src/common/protocol.js:60 | the first occurrence of a byte, or -1 exactly if there is none |
| Framing.ReadJsonLine | src/common/protocol.js:48-92 | the listener loop settles as one scan of the delivered chunks says, or with the error or end that follows them, puts the rest back and leaves the socket paused only when a line was found |
| Framing.HeaderFoundHoweverCut | src/common/protocol.js:58-75 | a header of at most MAX_HEADER bytes is found whole under every way of cutting the stream, and exactly the bytes after its newline are left to read |
| Framing.AcceptedUnderEveryCutIff | src/common/protocol.js:62-66 | a header is accepted under every cut if and only if it fits in MAX_HEADER; a longer one is accepted under some cut |
| Framing.LateNewlineRefused | src/common/protocol.js:62-66 | a longer header is refused when the chunk ends just before its newline |
| Framing.WaitsIff | src/common/protocol.js:62-68 | the wait goes on if and only if no newline has come and what has come fits in MAX_HEADER |
| Framing.RefusalLeavesRest | src/common/protocol.js:62-67 | a refusal comes after chunks without a newline that outgrow MAX_HEADER, and leaves the later chunks unread |
| Sockets.Socket.Unshift | src/common/protocol.js:75 | the chunk becomes the next one to be delivered |
| Sockets.ArrivedKeepsUnread | src/common/protocol.js:58-75 | how the network cuts the stream into chunks does not change what is left to read |
| Streams.WriteStream.constructor | src/server/storage.js:108-110 | a stream opened at a position has nothing accepted yet |
| Streams.WriteStream.Write | src/common/protocol.js:130-131 | the piece joins the backlog; there is room left exactly while the backlog is below the high-water mark |
| Streams.WriteStream.End | src/server/handlers.js:34-37 | every accepted byte is on disk, no other file is touched |
| Streams.WriteStream.Kill | src/server/storage.js:5-11 | a killed process leaves any part of the backlog on disk |
| Streams.EndedAppends | src/server/handlers.js:34-37 | closing a stream opened at the end of its file appends exactly the accepted bytes, in order |
| Streams.WrittenBytes | src/server/storage.js:108-110 | a write at a position replaces or adds exactly its own bytes; a gap before it reads as zeros |
| Streams.TruncatedBytes | src/server/storage.js:107 | truncating to a length keeps what is before it and fills a shorter file up with zeros |
| Receive.SubarrayIndex | src/common/protocol.js:123-126 | a subarray bound stays inside the buffer and is the index itself when that is in range |
| Receive.Receiver.constructor | src/common/protocol.js:107-109 | a transfer starts with nothing received, the socket flowing and the promise open |
| Receive.Receiver.Trim | src/common/protocol.js:121-127 | what goes beyond the promise is handed back, unread and in order, with the socket paused |
| Receive.Receiver.OnData | src/common/protocol.js:118-139 | keeps what was promised, hands the rest back, pauses when over the promise or without room, tells the progress callback, resolves when all has come |
| Receive.Receiver.OnError | src/common/protocol.js:143-147 | a disconnect rejects with the bytes received, another error as itself |
| Receive.Receiver.OnEnd | src/common/protocol.js:142 | the end of the stream rejects with the bytes received |
| Receive.Receiver.OnDrain | src/common/protocol.js:141 | an emptied stream makes the socket flow again |
| Receive.Receiver.Handle | src/common/protocol.js:149-153 | one turn of the event loop calls the listeners that are attached and is one step of the machine |
| Receive.Receiver.Process | src/common/protocol.js:107-155 | a whole schedule of turns is a run of the machine, touches only its own file, and publishes the progress the run calls for |
| ReceiveSafety.TakenMovesBytes | src/common/protocol.js:118-130 | taking a chunk moves bytes from the socket to the stream and loses none |
| ReceiveSafety.StepInv | src/common/protocol.js:107-155 | every event keeps: disk plus backlog is the old file plus the bytes received, the socket still holds all the others, and it flows exactly while no drain is owed |
| ReceiveSafety.RunInv | src/common/protocol.js:107-155 | so does every run |
| ReceiveSafety.AttemptAppendsPrefix | src/server/handlers.js:61-87 | refinement: whatever the schedule, one attempt appends a prefix of the peer's bytes to the opened file, a killed one no more than that, and completion means exactly that the whole remainder was appended |
| ReceiveProgress.BacklogBounded | src/common/protocol.js:101-105 | with chunks of at most m bytes the backlog stays below the high-water mark plus m, in every run |
| ReceiveProgress.TransferBacklogBounded | src/common/protocol.js:130-131 | the same for a transfer from its start |
| ReceiveProgress.TurnsAreBounded | src/common/protocol.js:107-155 | the event loop takes only boundedly many effective turns without news from the network |
| ReceiveProgress.StuckWhilePending | src/common/protocol.js:130-141 | no lost wakeup: an open transfer with nothing to do is flowing and waits for the network only |
| ReceiveProgress.PausedMeansDrainOwed | src/common/protocol.js:131-141 | a paused open transfer has a flush or a drain coming, and the drain makes it flow |
| ReceiveProgress.SettlesByWhatWasDelivered | src/common/protocol.js:118-147 | when nothing is left to do, a non-empty transfer has resolved if its whole remainder was delivered, and is rejected with the exact count if the peer closed before |
| ReceiveProgress.EmptyRemainderNeverResolves | src/common/protocol.js:118-139 | as long as no byte comes, the promise never resolves |
| ReceiveProgress.CanResolveIff | src/common/protocol.js:118-139 | a transfer can complete if and only if the peer sends all that is promised, and at least one byte |
| ReceiveProgress.ErrorSettles | src/common/protocol.js:143-147 | a disconnect settles an open transfer as interrupted with the bytes received, any other error as failed |
| ReceiveProgress.SettledByError | src/common/protocol.js:142-147 | over every run, only an error that is no disconnect fails a transfer, and only a disconnect or the peer's end interrupts one |
| ReceiveProgress.OneDeliveryCompletes | src/common/protocol.js:118-139 | delivering a whole non-empty remainder completes it |
| ReceiveProgress.RestIsPutBack | src/common/protocol.js:121-127 | at completion everything after the body is unread; the socket flows on exactly if the body ended at a chunk boundary and the stream had room |
| ReceiveProgress.PausedSocketKeepsRest | src/common/protocol.js:121-127 | over every run, a socket left paused by a completed transfer holds exactly what follows the body |
| ReceiveProgress.FlowingSocketLosesRest | src/common/protocol.js:135-138 | a run that loses the message after the body |
| ReceiveProgress.RestSurvivesIff | src/common/protocol.js:135-138 | once a transfer has settled, the bytes after it are safe under every schedule if and only if its socket is paused or none of them can still be delivered |
| ReceiveProgress.RestKeptIff | src/common/protocol.js:118-139 | said of the delivery that completes it: the rest is safe under every schedule if and only if the chunk went past the body, or the stream had no room, or nothing more can be delivered |
| Exchange.HeaderThenBody | src/common/protocol.js:37-155 | framing does not depend on chunking: header, non-empty body and rest come apart exactly, however the stream is cut and whatever happens on the socket |
| Exchange.BodyRead | src/common/protocol.js:94-155 | the reader of a body writes only a prefix of it, and resolves exactly when it has written all of it |
| Throttle.Meter.OnProgress | src/server/handlers.js:66-72 | a report is published exactly when it is due |
| Throttle.CountingStream.Transform | src/common/protocol.js:163-175 | chunks pass unchanged and are counted |
| Throttle.Pipe | src/server/handlers.js:114-127 | the pipeline sends exactly the chunks that pass before the receiver disappears, publishes exactly the reports due, and counts what was sent |
| Throttle.Throttled | src/server/handlers.js:25-27 | reports are at least PROGRESS_EVERY apart, less than that plus one chunk, never withheld once due, and at most one for each PROGRESS_EVERY bytes |
| Throttle.ReportsAreMarks | src/server/handlers.js:66-72 | each number reported is where the transfer stood after one of its pieces |
| Throttle.TransferReports | src/server/handlers.js:63-72 | the same for any pieces that add up to total - offset bytes |
| ReceiveReports.GaugeFollowsPieces | src/server/handlers.js:63-72 | whatever the schedule, the callback of an upload makes of it the throttled reports of the pieces kept |
| ReceiveReports.UploadReports | src/server/handlers.js:63-72 | the reports of an actual upload, however it is scheduled and ends, are spaced and bounded in that way and number at most one for each PROGRESS_EVERY bytes received |
| Names.SafeNameIsLastSegment | src/server/storage.js:30-32 | a safe name is the last non-empty segment of the path; it holds no separator; a plain name is its own safe name |
| Names.SafeNameIdempotent | src/server/storage.js:30-32 | making a safe name safe changes nothing |
| Names.StaysInFolderIff | src/server/storage.js:29-40 | the path of a request is inside the storage folder, and its safe name there, if and only if that name is not empty, a dot or two dots |
| Names.JoinInjective | src/server/storage.js:38-40 | distinct segments are distinct files, except that the empty one and the dot are both the folder |
| Names.SameKeyIffSamePart | src/server/storage.js:38-53 | two requests queue on one lock key if and only if they write one part file, except for the two names of the folder |
| Names.PartIsFinalIff | src/server/storage.js:38-44 | a part path is a complete file's path if and only if that file's name is the upload's plus ".part" |
| FileLock.Chains.WithFileLock | src/server/storage.js:52-58 | a section hangs on the newest one of its key and becomes the newest |
| FileLock.Chains.RunNext | src/server/storage.js:55 | a section begins exactly if the one it hangs on has settled |
| FileLock.Chains.Done | src/server/storage.js:55-57 | a section settles, with success or failure, and touches no other |
| FileLock.SectionsTakeTurns | src/server/storage.js:46-58 | over every arrival and interleaving, sections on a key never overlap and run in arrival order, and a waiting one may begin if and only if all earlier ones on its own key have settled, in whatever way |
| FileLock.ArrivalsAreKept | src/server/storage.js:52-58 | every arrival queues one section under its own key, in order, and none is dropped |
| FileLock.ChangesAsTold | src/server/storage.js:55-56 | a section changes only by beginning when it may and by settling, once it runs, with the result it is given |
| FileLock.EverySectionCanSettle | src/server/storage.js:52-58 | after every run the waiting sections can all still run and settle, whichever of them fail |
| FileLock.OldestCanMove | src/server/policy.js:80-96 | the oldest unsettled section of a key is running or free to begin, so a failure blocks nobody |
| Policy.VisibleTo | src/server/policy.js:137-144 | the visible files are exactly the claimed ones the user can read or write |
| Policy.StoreFollowsLog | src/server/policy.js:47-63 | loading before and saving after each change carries the whole log from one change, or process, to the next |
| Policy.RefusalChangesNothing | src/server/policy.js:159-200 | whatever is refused leaves the rules as they were |
| Policy.Noticed | src/server/policy.js:155-204 | a change is announced exactly if it was accepted |
| Policy.PolicyStore.Reload | src/server/policy.js:47-63 | the copy becomes what is stored; a missing or corrupt file reads as empty |
| Policy.PolicyStore.ClaimFile | src/server/policy.js:148-156 | load, change, save, announce: a new rule only if there is none |
| Policy.PolicyStore.ShareFile | src/server/policy.js:159-186 | only the owner grants, into the right bucket, without duplicates, with the source's order of refusals; what is granted is announced |
| Policy.PolicyStore.SetPublicFile | src/server/policy.js:188-206 | only the owner changes visibility, and a change is announced |
| PolicyHistory.RuleFollowsHistory | src/server/policy.js:146-206 | after any log, owner, readers, writers and visibility of a claimed file are what the log says, without duplicates |
| PolicyHistory.AccessIsHistory | src/server/policy.js:118-144 | who owns, reads, writes and sees a file is exactly a function of the log of changes |
| PolicyHistory.ClaimAnswer | src/server/policy.js:148-156 | a claim creates the rule exactly if the log holds no earlier one |
| PolicyHistory.ShareAnswer | src/server/policy.js:159-186 | a share is granted if and only if the log says that the file is claimed, by the one who shares first of all, and the permission is known; otherwise each refusal has its own cause, in the order of the code |
| PolicyHistory.PublicAnswer | src/server/policy.js:188-206 | the same for a change of visibility |
| PolicyHistory.NoticesAreHistory | src/server/policy.js:155-205 | what is announced, and whose names it carries, is an exact function of the log: a first claim, what an owner grants or switches, and nothing else |
| PolicyHistory.GrantsOnlyGrow | src/server/policy.js:148-206 | no later changes take back a rule, an owner or a grant |
| PolicyHistory.RightLastsIff | src/server/policy.js:131-135 | a right to write survives every later change if and only if it is held through a rule |
| PolicyCluster.StepInv | src/server/policy.js:65-112 | every step within the guards keeps the invariant of all processes, the lock file, the rules file and the log |
| PolicyCluster.OneCritical | src/server/policy.js:98-112 | at most one process is in its critical section |
| PolicyCluster.PolicyIsLinearizable | src/server/policy.js:80-112 | for any number of processes and every interleaving within the guards: no overlap, the file is the sequential result of the committed log whenever no write is under way, every answer is the sequential one, and no call is lost, repeated or reordered |
| PolicyCluster.LogOnlyGrows | src/server/policy.js:80-92 | what has been committed stays committed, in its order |
| PolicyCluster.RealTimeOrder | src/server/policy.js:80-112 | the log respects real time: a call that had returned comes before every call, of any process, that had not been submitted by then |
| PolicyCluster.WaiterIsServed | src/server/policy.js:98-112 | in every run, a waiter can take the lock, or its live holder is at most five of its own steps from releasing it, or the holder is dead and the lock may be removed |
| PolicyCluster.BreakingLiveLockLosesUpdate | src/server/policy.js:105-107 | when the section let in by removing the lock of a holder that has just loaded finishes first, the file is the sequential result of the log if and only if the change let in did nothing, or the holder's is the same change or sets the same switch |
| PolicyCluster.OverlapLosesIff | src/server/policy.js:80-112 | whatever the holder was doing and under every schedule of the two sections, once both have written the file is the sequential result if and only if the change logged first is not missed by the one that wrote last |
| PolicyCluster.LostIff | src/server/policy.js:148-206 | of two changes made on the same rules, the one overwritten is not missed if and only if it did nothing or the other supersedes it |
| PolicyCluster.ConfirmedClaimIsLost | src/server/policy.js:98-112 | from a fresh start, with two waiters past their deadline, two claims are confirmed and the file holds only one of them |
| PolicyCluster.StrayReloadLosesUpdate | src/server/policy.js:55-63 | after a reload between change and stringify, the file is the sequential result if and only if the reload read the very rules it replaced |
| PolicyCluster.ConfirmedClaimIsReloadedAway | src/server/policy.js:55-63 | from a fresh start, with a reload that reads what is really on disk, a claim is confirmed and the file holds no rule |
| PolicyCluster.NextStartsFromNothing | src/server/policy.js:47-58 | after a death inside a save the next section is let in and starts from no rules at all |
| PolicyCluster.CrashInSaveForgetsEverything | src/server/policy.js:47-58 | what that section leaves is the sequential result if and only if nothing had been committed, or all that had been is the rule its own claim makes anew |
| PolicyCluster.ConfirmedClaimIsForgotten | src/server/policy.js:47-58 | from a fresh start, a confirmed claim is gone from the file after another change died half written |
| Upload.Storage.UploadedBytes | src/server/storage.js:69-72 | the size of the part file, or 0 |
| Upload.Storage.Exists | src/server/storage.js:61-63 | whether the complete file is there |
| Upload.Storage.Size | src/server/storage.js:65-67 | the size of the complete file, or 0 |
| Upload.Storage.OpenForAppend | src/server/storage.js:101-111 | the part file is cut to the offset, or emptied at 0, and the stream stands at its end |
| Upload.Storage.Finalize | src/server/storage.js:113-121 | the part file takes the complete name; a death in between leaves neither old nor new version under it |
| Upload.CloseStream | src/server/handlers.js:73-87 | the stream is flushed whichever way the receive loop ended |
| Upload.ReceiveMetered | src/server/handlers.js:63-85 | the receive loop with its callback: what is written, and the reports and resume point published |
| Upload.ReceivePart | src/server/handlers.js:61-87 | open, receive, close changes the part file only, to what the receive machine says |
| Upload.Promote | src/server/handlers.js:89-92 | a whole part file takes the complete name, with every point at which that can stop |
| Upload.ReceiveAndPromote | src/server/handlers.js:61-93 | the same once the part file is opened |
| Upload.Transfer | src/server/handlers.js:61-93 | the body of the lock: promote what is whole and nothing else, with every point at which it can stop, from waiting for the lock to the reply, and what is published |
| Upload.HandleUpload | src/server/handlers.js:40-94 | permission, then offset, then transfer, then claim: the reply, both files, all other files, the rules and everything published |
| UploadRuns.ReceivedExtends | src/server/handlers.js:61-87 | the part file after an attempt is what it was opened with plus a prefix of what was sent, and whole only if all of a non-empty remainder is there |
| UploadRuns.ResumePointIsPartSize | src/server/handlers.js:75-84 | the offset plus the bytes received is the size of the part file left behind |
| UploadRuns.HalfWayFile | src/server/storage.js:5-11 | while a transfer is open, its file and the backlog are what was there and exactly the bytes received |
| UploadRuns.CutOffPublishedIff | src/server/handlers.js:73-85 | a resume point is published if and only if the transfer was interrupted and the node lives on |
| UploadRuns.PublishedResumePoint | src/server/handlers.js:77-84 | the resume point published is the size of the part file left behind |
| UploadRuns.FinishedPublishedIff | src/server/handlers.js:89-91 | a completion is published if and only if the claim is made, with the size of the file then under the name |
| UploadRuns.ServeOutcomes | src/server/handlers.js:61-93 | the file is promoted, claimed, and confirmed with its size if and only if all of it was received and the node gets that far |
| UploadRuns.ServeExtends | src/server/handlers.js:60-93 | one attempt keeps the part file a prefix of its goal, or untouched if the node dies before opening it; the complete file is untouched, gone, or the goal; only the goal is confirmed or claimed |
| UploadRuns.GoalIsSourceIff | src/server/handlers.js:52-55 | the goal is the source if and only if the kept bytes agree with it |
| UploadRuns.CleanAttemptCompletes | src/server/handlers.js:60-93 | an undisturbed attempt with bytes to send is promoted and confirmed |
| UploadRuns.ConfirmedPossibleIff | src/server/handlers.js:61-92 | whatever the peer sends, a request can be confirmed if and only if all that was announced is sent, and at least one byte |
| UploadRuns.ExtraBytesCompleteEmpty | src/common/protocol.js:118-139 | an upload announced as empty and followed by anything completes an empty file |
| UploadRuns.RemovedIff | src/server/storage.js:117-118 | a request takes the old version away and puts nothing in its place if and only if all of the upload was received and the section stops between remove and rename |
| UploadRuns.RemovedByCleanTransfer | src/server/storage.js:117-118 | a clean transfer that stops there leaves a part file of full length and no complete file |
| UploadRuns.NextIntact | src/server/handlers.js:52-93 | one attempt keeps: the part file is a prefix of its source, the complete name holds the last promoted version, never an empty one, or nothing; a confirmation is true |
| UploadRuns.UploadsStayIntact | src/server/storage.js:5-11 | so does every run of attempts by any number of clients that send what they announce or less, on any nodes; it holds nothing only after a stop between remove and rename |
| UploadRuns.ConfirmedIsComplete | src/server/handlers.js:89-92 | in any run of many clients, whenever an attempt is confirmed its whole source is under the complete name |
| UploadRuns.MixedSourcesIff | src/server/handlers.js:51-55 | resuming another source's part file is promoted all the same, and right if and only if the kept prefixes agree |
| UploadRuns.FullPartIsStuck | src/server/handlers.js:66-73 | a peer that sends no more than it announced never has a part file of full length promoted by resuming it, nor changes it |
| UploadRaces.RacesStayIntact | src/server/handlers.js:51-93 | any number of requests checked and served in any interleaving keep the files intact as long as each check still holds when its section begins |
| UploadRaces.AloneIsNext | src/server/handlers.js:51-93 | a request checked and served with nothing in between is the handler in one go |
| UploadRaces.StaleCheckIff | src/server/storage.js:105-109 | a section whose check went stale completes with the source if and only if the missing bytes were all zeros |
| UploadRaces.RestartUnderResumeCorrupts | src/server/handlers.js:51-62 | one unchanged source, both checks passed, the lock served in order: a wrong file of the right length is confirmed |
| UploadRights.PromoterMayWriteIff | src/server/handlers.js:46-61 | a user who passes the check may write the name after everything that can happen before the section's turn if and only if the name has a rule when the user asks |
| UploadRights.RuledRequestsMayWrite | src/server/handlers.js:46-61 | in every run, a request admitted under a rule may still write when its turn comes |
| UploadRights.AloneIsHandled | src/server/handlers.js:46-93 | so is one checked, served and followed by its claim, and only a promotion claims |
| UploadRights.UnclaimedNameIsOverwritten | src/server/handlers.js:46-93 | two users upload one unclaimed name: both pass, both are confirmed, the first owns it and the file is the other's |
| Client.PushOnce | src/client/client.js:172-204 | one connection against the handler ends as done, refused or cut, at any offset learnt earlier, and changes no other file |
| Client.UploadFile | src/client/client.js:132-170 | the retry loop does exactly what its recursive description says, among any other clients and over every behaviour of the network and the nodes |
| Client.ContestedAlone | src/client/client.js:142-169 | without other clients that description is the one the results about a single client are stated for |
| UploadLoop.PushFits | src/client/client.js:142-163 | one attempt extends the part file from the source and promotes only a full-length result |
| UploadLoop.UploadEnds | src/client/client.js:142-169 | however an upload ends, the complete name is what it was, absent, or a full result, and success means a full result is there |
| UploadLoop.AttemptsAreLimited | src/client/client.js:142-168 | attempts are limited, follow on from each other, only an interruption leads to another, a refusal ends the loop |
| UploadLoop.SeenIff | src/client/client.js:172-204 | an attempt is taken for a "no" if and only if it connects and is refused or hung up on, and for a success if and only if the body was received whole and both replies arrive; anything else is an interruption |
| UploadLoop.LoopFollows | src/client/client.js:142-169 | among any other clients, attempt by attempt: where each starts, what it finds and leaves, and what ends the loop |
| UploadLoop.RefusedIff | src/client/client.js:153 | among any other clients, the loop ends in a "no" if and only if its last attempt connected and was refused or hung up on |
| UploadLoop.InterruptionIsRetried | src/client/client.js:153-163 | alone and permitted, only a peer that hangs up before its first reply can end it so; an interrupted transfer never does |
| UploadLoop.RetryCompletes | src/client/client.js:142-163 | whatever cut an attempt off, if what it left is shorter than the source, one clean attempt for the missing bytes completes it |
| UploadLoop.ContestedRetryCompletes | src/client/client.js:142-163 | the same among other clients, once they leave the name alone |
| UploadLoop.BytesAreConserved | src/client/client.js:142-151 | while every STAT is answered, each attempt resumes where the one before stopped; what was persisted adds up to the source minus the first offset at the promotion, so no byte is written twice |
| UploadLoop.CleanTrySucceeds | src/client/client.js:142-168 | an undisturbed first attempt on a shorter part file succeeds |
| UploadLoop.FullPartNeverSucceeds | src/client/client.js:184-200 | no number of retries completes a part file that is already long enough |
| UploadLoop.RestartSucceeds | src/client/client.js:129-144 | a STAT without an answer makes the next attempt start over at 0, and that attempt can succeed |
| UploadLoop.SuccessPossibleIff | src/client/client.js:132-170 | an upload whose STATs are answered can succeed if and only if the user may write and the part file found is shorter than the source |
| UploadLoop.SuccessEverPossibleIff | src/client/client.js:132-170 | counting unanswered STATs in, an upload can succeed if and only if the user may write and the source is not empty |
| UploadLoop.LongPartEnds | src/client/client.js:142-168 | an upload that finds a part file at least as long as its source succeeds only with the source itself |
| UploadLoop.IntegrityIff | src/client/client.js:132-170 | every success leaves the source under the complete name if and only if the part file found is a prefix of it, or too long to be resumed |
| UploadLoop.RemovedForGood | src/server/storage.js:117-118 | after a node stopped between remove and rename, no upload of a source no longer than the new version whose STATs are answered completes anything |
| UploadLoop.VersionReturnsIff | src/client/client.js:142-168 | some upload whose STATs are answered puts given bytes under the name again if and only if the user may write, its source is longer than what was left, and the bytes are that source or what was left extended from it |
| UploadLoop.ContestedUploadEnds | src/client/client.js:132-170 | among other clients uploading the same source, before and between this one's requests, a reported success means the source is under the complete name |
| Download.Cut | src/server/storage.js:93-98 | a read stream delivers the file in chunks of at most CHUNK_SIZE |
| Download.HandleDownload | src/server/handlers.js:97-140 | existence, then permission, then the size, then the bytes from the offset on, each read after other requests may have changed the folder, up to where the receiver disappears; everything published; nothing changed |
| Download.UndisturbedReply | src/server/handlers.js:110-127 | undisturbed, the size announced is the file's and the body is the file from the offset on |
| Download.SentIsTail | src/server/handlers.js:122-127 | what is sent is the file from the offset on, all of it unless the receiver disappears, and nothing if the file is gone when it is opened |
| Download.StoryEnds | src/server/handlers.js:110-139 | a download that is opened ends as completed, with the size announced, if and only if the receiver stays, and otherwise as cut off at the byte it got to; one that is not opened publishes no end |
| Download.Target.OpenPart | src/client/client.js:262-268 | the local part file is cut to the offset, or emptied at 0 |
| Download.Target.Place | src/client/client.js:236-237 | remove, then rename: the part file takes the target's place; without one, or with a stop in between, the old target is gone and nothing takes its place |
| Download.Target.PullOnce | src/client/client.js:247-285 | one attempt changes only the local part file, as the receive machine says |
| Download.Target.DownloadFile | src/client/client.js:207-245 | the retry loop and the last step do exactly what their recursive description says, whatever each attempt is offered and wherever the last step stops, and touch only the two files |
| DownloadLoop.PullFollowsOffer | src/client/client.js:259-281 | one attempt extends the part file from whatever the node sends and is done only at the size it announced |
| DownloadLoop.PullExtends | src/client/client.js:259-281 | one attempt extends the part file towards the served file and is done only when it is complete |
| DownloadLoop.SeenIff | src/client/client.js:247-285 | an attempt is taken for a "no", a success or the client's own death exactly when it is one; anything else is an interruption |
| DownloadLoop.InterruptionIsRetried | src/client/client.js:222-234 | a download is refused only by a node that says so or hangs up, and given up only if every attempt was cut off |
| DownloadLoop.RetryCompletes | src/client/client.js:213-234 | after any interruption, one clean attempt for the missing bytes completes the download |
| DownloadLoop.PullLeaves | src/client/client.js:263-281 | what arrived is kept: the part file is flushed however the attempt ends, unless the client dies |
| DownloadLoop.DownloadEnds | src/client/client.js:213-243 | over every run against one file, whichever nodes refuse and wherever the last step stops, the target is untouched until the part file is complete, and success puts exactly that there; an empty file, or a stop between remove and rename, can cost the target, the latter leaving the complete part file |
| DownloadLoop.TargetLostIff | src/client/client.js:236-237 | a failed download can lose the old target if and only if there was one and the client stops between remove and rename, or the file served is empty and no part file was found |
| DownloadLoop.AnnouncedSizeLosesTargetIff | src/client/client.js:236-260 | the same for any announced size: the stop costs the target exactly if the part file can reach that size |
| DownloadLoop.TargetEverLostIff | src/client/client.js:236-237 | a failed download can lose the old target if and only if there was one |
| DownloadLoop.LostTargetReturns | src/client/client.js:236-260 | after a stop between remove and rename, one answered attempt places the complete part file without fetching a byte |
| DownloadLoop.AnnouncedSizeIff | src/server/handlers.js:103-127 | every success is the whole file if and only if nothing was missing, or at least its size is announced, or there is nothing to place |
| DownloadLoop.RefusedDownload | src/client/client.js:225 | a refusal ends the loop and changes nothing |
| DownloadLoop.CleanTrySucceeds | src/client/client.js:213-243 | an undisturbed attempt succeeds |
| DownloadLoop.SuccessPossibleIff | src/client/client.js:207-245 | a readable file can be downloaded if and only if it is not empty or a part file is there |
| DownloadLoop.IntegrityIff | src/client/client.js:259-260 | every success leaves the served file in place if and only if the part file found is a prefix of it |
| Balancer.NodeRegistry.constructor | src/balancer/balancer.js:63-73 | every node starts unknown, with all counters 0 |
| Balancer.NodeRegistry.Choose | src/balancer/balancer.js:121-126 | filtering and sorting put the right node first |
| Balancer.NodeRegistry.PickNode | src/balancer/balancer.js:120-130 | the chosen node, and no other, has one more pending client |
| Balancer.NodeRegistry.Record | src/balancer/balancer.js:80-98 | one ping result replaces the counters of its node, and clears the guesses and stamps the time only if it was answered |
| Balancer.NodeRegistry.CheckAll | src/balancer/balancer.js:79-99 | a round gives every node its own result |
| Balancer.Choice | src/balancer/balancer.js:120-127 | an answering node of least load, then least served, then first in order; nobody only if none answers |
| Balancer.SortedHeadIsChoice | src/balancer/balancer.js:125-128 | the head of the stable sort is that node |
| Balancer.SortPermutes | src/balancer/balancer.js:125-126 | the sort neither drops nor repeats a node |
| Balancer.RegistryFollowsFacts | src/balancer/balancer.js:79-130 | over any interleaving of picks and pings, pending is the number of hand-outs since the last answered ping, failures the pings missed in a row, last_seen the last answer, and the rest is what the latest ping said |
| Balancer.PickIsLeastLoaded | src/balancer/balancer.js:112-130 | so every pick is least loaded by what an outside observer saw, and nobody is picked only if no latest ping was answered |
| BalancerOptimality.HandedLevels | src/balancer/balancer.js:120-130 | after any number of picks, no picked node is more than one above any answering node, and nothing but pending changed |
| BalancerOptimality.GainsDistribute | src/balancer/balancer.js:120-130 | k picks hand exactly k clients to answering nodes |
| BalancerOptimality.GreedyPeakIsOptimal | src/balancer/balancer.js:112-130 | no other way of handing out the same clients has a lower peak among the nodes that receive them |
| BalancerOptimality.GreedyCostIsOptimal | src/balancer/balancer.js:112-130 | nor a lower total of any convex cost of load |
| BalancerOptimality.GreedySquaresAreMinimal | src/balancer/balancer.js:112-130 | in particular the sum of squared loads is minimal |
| BalancerOptimality.GapNeverWidens | src/balancer/balancer.js:120-130 | picks keep the gap between answering nodes at most what it was, or one |
| BalancerOptimality.EqualShares | src/balancer/balancer.js:120-130 | from equal loads over n answering nodes each gets k/n clients, rounded down or up |
| Monitor.NodeMonitor.OnEvent | src/server/monitor.js:53-111 | window, counters and live transfers after one event |
| Monitor.NodeMonitor.Snapshot | src/server/monitor.js:114-126 | the status published: identity, time, connections, counters, transfers and window |
| Monitor.WindowIsEndOfHistory | src/server/monitor.js:57-58 | the window is exactly the last 40 events of the whole history |
| Monitor.WindowShowsEvents | src/server/monitor.js:57-58 | each entry of it shows when its event was, what it was, and whom and what it concerned |
| Monitor.OpenIsStartsMinusEnds | src/server/monitor.js:68-106 | open transfers of a key are its starts minus its ends |
| Monitor.CountersCount | src/server/monitor.js:60-111 | on any trace each counter is the number of events of its own kind and direction, and the bytes are the sizes of the completed ones |
| Monitor.OpenIsOutstanding | src/server/monitor.js:68-106 | open transfers of all keys are what the counters leave outstanding |
| Monitor.ShownHaveMoreStarts | src/server/monitor.js:55-106 | a transfer shown live has more starts than ends |
| Monitor.LiveTransfersBounded | src/server/monitor.js:53-111 | no more are shown than are outstanding, and exactly as many if no two open transfers ever shared a key |
| Monitor.ShownIffUnended | src/server/monitor.js:68-106 | on any trace at all, a key is shown if and only if some start of it has no end after it |
| Monitor.ShownAsReported | src/server/monitor.js:68-99 | and it shows its latest start at the progress reported since |
| Monitor.KeysSeparate | src/server/monitor.js:55 | keys tell transfers apart unless one user name up to a colon begins the other |
| Monitor.KeysCollideIff | src/server/monitor.js:55 | two users can have two transfers of published file names under one key if and only if one name is the other, a colon and something without a separator |
| Lifecycles.UploadIsStory | src/server/handlers.js:57-91 | what an admitted upload publishes is a start, progress, and at most one end, which is last |
| Lifecycles.DownloadIsStory | src/server/handlers.js:110-139 | so is what a download publishes |
| Lifecycles.StoryIsTold | src/server/handlers.js:57-91 | each event of a story reaches the monitor as what it is, in order |
| Lifecycles.LifecyclesMatch | src/server/handlers.js:57-91 | however the stories of any number of handlers interleave, every end they publish matches an open start, and nothing is left out |
| Lifecycles.HandlersShownWithinOutstanding | src/server/monitor.js:53-111 | so a node never shows more live transfers than its counters leave outstanding |
| Dashboard.CollectEvents | src/dashboard/dashboard.js:90-107 | the merge, sort and cut of all windows |
| Dashboard.SortSorts | src/dashboard/dashboard.js:99 | the sorted timestamps are a permutation, newest first |
| Dashboard.SortPermutes | src/dashboard/dashboard.js:99 | the sort keeps every event with its node |
| Dashboard.SortIsStable | src/dashboard/dashboard.js:99 | events of one instant stay in the order in which they were merged |
| Dashboard.FeedRowsAreReal | src/dashboard/dashboard.js:97 | whatever is shown is in the window of the node it is shown for |
| Dashboard.FeedIsNewestIff | src/dashboard/dashboard.js:90-107 | whatever the clocks do, the feed shows the 30 newest timestamps of everything ever published on all nodes if and only if each timestamp a window dropped is no newer than 30 of those still there |
| Dashboard.FeedIsNewestOfAll | src/dashboard/dashboard.js:90-107 | if no clock runs backwards, that is so |
| Dashboard.BackwardClockHidesNewest | src/server/monitor.js:57-58 | if one does, the newest event can be missing |

## Left out

- Real sockets, `fs` and stream internals: a socket, a write stream and a file are the queues and sequences described above.
- `JSON.parse` and `JSON.stringify`: parsing a header is a parameter of `ReadJsonLine`, the rules file holds rules.
- Wall-clock time: sleeps, socket timeouts and deadlines are events or guards; timestamps are integers.
- The client's own progress display; its receive loop has no callback.
- UploadRaces.RacesStayIntact: sections of one name do not overlap, which `FileLock` gives inside one process; the code has no lock on a part file across processes.
- Upload.Transfer: a failing `rm` or `rename` leaves what stopping before it leaves; a death between truncating and opening leaves what `DiesWriting(0)` leaves before any event; an error of the write stream itself, such as a full disk, is not modelled.
- UploadLoop.ContestedUploadEnds: requests of others come before and between this client's requests; inside one process sections that overlap in time are the subject of `UploadRaces`.
- UploadRuns.UploadsStayIntact: a peer that sends more than it announces is covered only by `ConfirmedPossibleIff` and the receive lemmas.
- The rounding of the uptime a node publishes.
- PolicyCluster.PolicyIsLinearizable: a failing save or lock file operation other than "already exists" is not modelled; queries outside the lock may read a torn file and see no rules, and nothing is claimed about them.
- Names: paths are POSIX paths; a request that names the folder itself is covered only by the path lemmas, and uploads named like the rules file or like a built-in property of a JavaScript object are not covered.
- `Array.prototype.sort` is its specification, a stable sort, written as an insertion sort.
- The truth of `bytes_in` and `bytes_out`, which add the whole file size even for a resumed transfer.
- The connection counters and dispatch table of `src/server/node.js`, and the event bus: one-branch facts.
- The totals, node rows and file table of the dashboard, and `listFiles`, `handleList` and `handleStat`: plain projections.
- Command line, benchmark, HTML page, HTTP server, logging, shutdown, status files, `humanSize` and throughput figures.
- User authentication: names are taken as given.
