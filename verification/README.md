# Localsendy, verified

A Dafny model of the stateful parts of localsendy, a LocalSend node: receiving files, sharing them by link,
sending them, remembering what was sent, planning discovery and choosing the save directory. Each part is a
model of the code as it is, with proofs of what it keeps over every run or on every input.

- **Receiving** (`Incoming*.dfy`, `Receiver.dfy`). The event loop, the user, the idle watchdogs and the
  per-upload tasks interleave at every lock scope. `Incoming.Next` is one atomic step of any of them, and
  `Run` folds it over a sequence of actions; it is total, and an action that is not enabled does nothing, so
  every sequence of actions is a run. The class `Receiver` performs each step in place and keeps a ghost log
  of its actions, so that what holds over runs (`IncomingTraces.dfy`) holds of the object.
- **Moving uploads into place** (`Finalize.dfy`, `Finalizers.dfy`). A link that fails if the name is taken,
  tried under numbered names, alone and with any number of competitors.
- **Link shares** (`LinkShare*.dfy`, `ShareStaging.dfy`). The store with its requests, PIN attempts and
  waiting handlers as another machine, its in-place form with a log of its own, and the staging of the shared
  files.
- **Staged files** (`Staging.dfy`, `StagingRaces.dfy`). Streaming one file, and forms, stops, sends and
  clean-ups side by side, any of which can be dropped where it waits.
- **Sending** (`SendStaging.dfy`, `Sending.dfy`, `Ledger.dfy`). The form with targets and files, one send to
  one target, and the bounded ledger of transfers.
- **Remembering** (`Storage.dfy`, `History.dfy`, `Restore.dfy`, `Restart.dfy`). The transfer table, recording
  and listing batches, migration, rebuilding the ledger, and what a restart shows of a send.
- **Discovery** (`Addresses.dfy`, `Discovery.dfy`, `DiscoveryCoverage.dfy`, `HiddenNetworks.dfy`). The greedy
  cover of networks, which of them it reaches, and the canonical endpoint list.
- **Save directories and download names** (`SavePaths.dfy`, `SavePathDots.dfy`, `Disposition.dfy`).
- `Wrappers`, `Numbers`, `Seqs`, `Text` and `Ordering` hold what the models share.

Session, file, request and transfer ids are opaque and fresh where the program draws a UUID. Sizes are
unbounded integers with the 64-bit wrap-around, saturation or check written out where the program has one.
What the disk, the network, the remote target and the clock do comes in as parameters or actions.

## What the code does not promise

- The declared sizes of an incoming request are summed without a check. A request whose sizes sum to 2^64 or
  more wraps around and can pass the limit; below that the limit is exact.
- Failed is not final in the incoming list: a late result can still complete a file after its session timed
  out. Completed is final when each file is uploaded once.
- In automatic mode a physical adapter on networks is left out when each of them is also on a physical adapter
  before it, even one that cannot be used there: point-to-point for IPv4, or without an index for IPv6. A
  network is hidden exactly when no adapter in use on it can reach it (`HiddenNetworks`); this happens also
  beside an active covering adapter.
- A recorded send of which some files were declined shows the accepted total before a restart and the total
  of all files after it, whether it completed or failed while sending the accepted ones. A progress report that
  a body still being streamed stores after the outcome is shown until the restart and gone after it.
- Starting a share deletes the files of the one it replaces before it disarms its own guard. If its request is
  dropped in between, the guard deletes the files of the share now active. Files that a dropped start or stop
  had still to delete are left until the next program start.
- The error message for a save directory says that a path must not contain "."; the code refuses one only as the
  first component, and drops the others (`SavePathDots`). A directory whose name ends in white space can be
  chosen, but its saved path names another directory at the next start.

## Model

| member | source | states |
|---|---|---|
| IncomingDecisions.AtMostOneDecision | crates/localsendy-core/src/receiver.rs:170-293 | Over every interleaving of prepare, user decision, session end, abort, idle timeout and uploads, no incoming request is decided twice. |
| IncomingDecisions.UndecidedIsPending | crates/localsendy-core/src/receiver.rs:259-292 | The request in the pending slot is undecided; any other undecided request is still in the event loop's hands, or its decision task decides it at its next step. |
| IncomingDecisions.SlotDecidesFate | crates/localsendy-core/src/receiver.rs:267-292 | A request that leaves the slot by replacement, session end, abort or timeout resolves to Decline, whatever follows; one taken out by the user resolves to exactly what the user said, Accept always with the full file set. |
| IncomingDecisions.AcceptNeedsConsent | crates/localsendy-core/src/receiver.rs:252-292 | Every Accept carries the full file set and goes back to a step where automatic acceptance was on when the session was registered, or where the user accepted while this very request was in the slot. |
| IncomingDecisions.AcceptedWithinLimit | crates/localsendy-core/src/receiver.rs:178-193 | An accepted request has at most 100 files, and its true size is within the limit if and only if the sizes sum to less than 2^64 (the sum is unchecked). |
| IncomingDecisions.WrappingSumPasses | crates/localsendy-core/src/receiver.rs:178-256 | Two files whose sizes sum to 2^64 pass every limit, because the sum wraps to zero: with automatic acceptance the run that offers them ends in Accept. |
| IncomingTransfers.TransferListIsTruthful | crates/localsendy-core/src/receiver.rs:330-432 | In every reachable state a Receiving entry has an outstanding result task for its file (so none is Receiving once the tasks are gone), a Completed one is in the history with its size, and progress is at most the total. |
| IncomingHistory.ListIsRecentEndOfLog | crates/localsendy-core/src/receiver.rs:209-231 | Up to status and progress the transfer list is the last at most 100 entries ever listed, in order of arrival: a refinement of an unbounded log. |
| IncomingHistory.CompletedIsNeverLeft | crates/localsendy-core/src/receiver.rs:484-500 | With one upload event per file, an entry once Completed is Completed in every later state in which it is listed. |
| IncomingHistory.FailedIsLeft | crates/localsendy-core/src/receiver.rs:330-339 | Failed is not final: a failed entry stays failed exactly until its upload starts anew or a late result completes it. |
| IncomingHistory.TimedOutFileCompletes | crates/localsendy-core/src/receiver.rs:330-401 | A run in which it does not: one file, accepted and receiving, is Failed when its session times out after 120 silent seconds, and Completed when its result arrives after that. |
| IncomingHistory.EndingFailsOnlyIncomplete | crates/localsendy-core/src/receiver.rs:502-521 | Decline, cancellation, abort and timeout fail exactly the Waiting and Receiving entries of their session, with a reason, and change nothing else. |
| IncomingWatchdog.FiresOnlyAfterSilence | crates/localsendy-core/src/receiver.rs:549-603 | In every run, when a watchdog fires, each registration, upload start and progress report of its session lies at least 120 seconds back. |
| IncomingWatchdog.WaitForSessionIdle | crates/localsendy-core/src/receiver.rs:578-603 | The waiting loop ends at the first expiry or stop and at nothing else, and reports idleness only on an expiry measured from the latest activity. |
| ReceiverService.SumSizes | crates/localsendy-core/src/receiver.rs:178 | The accumulating loop computes the sum of the sizes modulo 2^64. |
| ReceiverService.Receiver.SoundOverRuns | crates/localsendy-core/src/receiver.rs:170-521 | A receiver updated in place by any sequence of its handlers decides no request twice, has a truthful list, and lists the recent end of all that was ever listed. |
| ReceiverService.Receiver.AcceptedWithConsent | crates/localsendy-core/src/receiver.rs:252-292 | Every acceptance of such a receiver carries the full file set and was consented to along its own log of actions. |
| ReceiverService.Receiver.FindTransfer | crates/localsendy-core/src/receiver.rs:491-496 | Finds the first entry for a session and file. |
| ReceiverService.Receiver.UpdateIncomingResult | crates/localsendy-core/src/receiver.rs:484-500 | Sets status and error of the first entry for the file, in place, and nothing else. |
| ReceiverService.Receiver.FailIncompleteSession | crates/localsendy-core/src/receiver.rs:502-521 | Fails the Waiting and Receiving entries of a session in place. |
| ReceiverService.Receiver.PrepareUpload | crates/localsendy-core/src/receiver.rs:170-231 | An oversized request is declined at once and leaves the list alone; otherwise all its files are listed, and the list stays truthful. |
| ReceiverService.Receiver.RegisterSession | crates/localsendy-core/src/receiver.rs:232-256 | The session is live with a watchdog that cannot fire before the whole timeout; with automatic acceptance on, the request is accepted with all its files, otherwise it is next for the slot. |
| ReceiverService.Receiver.FillPending | crates/localsendy-core/src/receiver.rs:258-264 | The new request is in the slot; one it displaces can from now on only be declined, whatever follows. |
| ReceiverService.Receiver.ResolveDecision | crates/localsendy-core/src/receiver.rs:267-292 | A task that has its answer decides the request as answered; unless accepted, no entry of the request is left waiting or receiving. |
| ReceiverService.Receiver.DecidePending | src/api.rs:655-664 | The request taken out of the slot can from now on only be accepted with all its files, or only be declined, as the user said; reports exactly whether there was one. |
| ReceiverService.Receiver.FileUpload | crates/localsendy-core/src/receiver.rs:294-303 | An upload to a live session renews its deadline, so its watchdog cannot fire now; list, slot and decisions stay. |
| ReceiverService.Receiver.BeginReceiving | crates/localsendy-core/src/receiver.rs:305-346 | The entry of the file, if listed, is Failed, or Receiving with a result task of its own; the list stays truthful. |
| ReceiverService.Receiver.CheckEndedSlot | crates/localsendy-core/src/receiver.rs:443-450 | The ended session is not in the slot; if it was, it can from now on only be declined, whatever follows. |
| ReceiverService.Receiver.FailEndedSession | crates/localsendy-core/src/receiver.rs:451-477 | No entry of a cancelled or aborted session is left waiting or receiving; other events leave the list alone. |
| ReceiverService.Receiver.EndSessionEvent | crates/localsendy-core/src/receiver.rs:439-458 | After the whole event the session is gone, it is not in the slot, and after a cancellation none of its entries is left waiting or receiving; a completed session leaves the list as it was. |
| ReceiverService.Receiver.AbortEvent | crates/localsendy-core/src/receiver.rs:460-477 | After an abort the session is gone, it is not in the slot, and none of its entries is left waiting or receiving. |
| ReceiverService.Receiver.FailUpload | crates/localsendy-core/src/receiver.rs:403-431 | The entry of the upload, if listed, is Failed and its task is over. |
| ReceiverService.Receiver.RecordUpload | crates/localsendy-core/src/receiver.rs:382-396 | The upload is in the history under its name and with its size, and what was there stays. |
| ReceiverService.Receiver.CompleteUpload | crates/localsendy-core/src/receiver.rs:398-401 | The entry of the upload, if listed, is Completed, with the file in the history; its task is over. |
| ReceiverService.Receiver.ReportProgress | crates/localsendy-core/src/receiver.rs:346-353 | No entry shows more than its total, and the session the upload belongs to cannot time out now. |
| ReceiverService.Receiver.FireWatchdog | crates/localsendy-core/src/receiver.rs:549-556 | If the watchdog fires, every registration, upload start and progress report of its session in the receiver's whole past lies at least 120 seconds back; otherwise no watchdog moves. |
| ReceiverService.Receiver.ClearIdleSlot | crates/localsendy-core/src/receiver.rs:560-567 | The timed-out session is not in the slot; if it was, it can from now on only be declined. |
| ReceiverService.Receiver.FailIdleSession | crates/localsendy-core/src/receiver.rs:568-573 | No entry of the timed-out session is left waiting or receiving, and its watchdog is gone. |
| Finalize.NumberedNameStaysInDirectory | crates/localsendy-core/src/receiver.rs:641-662 | Whatever name a sender asks for, every numbered name is one plain component: the file lands directly in the destination directory. |
| Finalize.NumberedNameInjective | crates/localsendy-core/src/receiver.rs:641-662 | For one requested name, different indices give different file names, index 0 included. |
| Finalize.TakenNamesBound | crates/localsendy-core/src/receiver.rs:627-639 | If the first n numbered names are taken, at least n names are: the pigeonhole behind termination. |
| Finalize.Directory.FinalizeUpload | crates/localsendy-core/src/receiver.rs:622-639 | The search takes the first free numbered name, at an index no greater than the number of entries (so below 2^32 when they are fewer), moves the content unchanged and changes no other entry; on another error the directory is unchanged, and if only the unlinking fails both names remain. |
| Finalizers.StepNeverOverwrites | crates/localsendy-core/src/receiver.rs:628-636 | With any number of concurrent finalizers no step changes the content of an existing name, and none removes a name but its own temporary file. |
| Finalizers.DeliveriesAreSafe | crates/localsendy-core/src/receiver.rs:622-639 | Two finalizers never get the same path, and each delivered file keeps its own upload's content in every later state. |
| Finalizers.SearchIsBounded | crates/localsendy-core/src/receiver.rs:627-637 | However the finalizers interleave, no search passes an index beyond the number of names the directory ever held. |
| LinkShareWaiting.PendingHoldsSender | src/link_share.rs:412-446 | In every reachable state a request is Pending exactly while it holds its decision sender, and its key is the text of its own address. |
| LinkShareWaiting.WaitingIsReachable | src/link_share.rs:412-461 | A handler still waiting is registered under its own request id in the active share, where a decision reaches it, or in a share just detached, whose rejection reaches it; otherwise it already has its answer. |
| LinkShareWaiting.ClearSparesSuccessors | src/link_share.rs:773-783 | A clean-up removes at most its own undecided request: never a successor under the same key, and nobody still waiting loses a sender. |
| LinkShareWaiting.AbandonedRequestsAreCleaned | src/link_share.rs:732-771 | In every reachable state a pending request nobody waits for any more has a clean-up outstanding. |
| LinkShareAccess.RunIsJustified | src/link_share.rs:396-446 | In every run each request of the active share was admitted on that share by a check against the PIN now in force, and an accepted one by automatic acceptance or by the owner's decision on that very request. |
| LinkShareAccess.GrantsAreJustified | src/link_share.rs:462-507 | Contents are handed out only to the address of such an accepted request of the active share, across all PIN changes, replacements and stale waiters. |
| LinkShareAccess.AttemptsCountFailures | src/link_share.rs:628-646 | The stored counter equals the Invalid-PIN replies of the address since its last success in this PIN epoch, and is at most ten. |
| LinkShareAccess.PinCheckIsLimited | src/link_share.rs:628-646 | The failures since the last success in the PIN epoch, at most ten, and the PIN decide each reply: after ten it is locked out, right PIN or not; before that the PIN alone decides, and other addresses never matter. |
| LinkShareAccess.LockedOutForGood | src/link_share.rs:628-646 | Once an address has had its ten Invalid-PIN replies, every later check of it is locked out, whatever anyone does, until a new share or a new PIN begins. |
| LinkShareService.LinkShareStore.SoundOverRuns | src/link_share.rs:293-507 | For a store updated in place by any sequence of its handlers: whoever may download was admitted under the PIN in force and with consent, a waiting handler can be reached, and no abandoned request lacks its clean-up. |
| LinkShareService.LinkShareStore.RejectAll | src/link_share.rs:660-666 | The draining loop tells every handler whose sender a request holds, and no other. |
| LinkShareService.LinkShareStore.StartShare | src/link_share.rs:648-651 | From a start on nobody may download until admitted anew; the replaced share is set aside with its requests, so that they can be rejected. |
| LinkShareService.LinkShareStore.UpdateShare | src/link_share.rs:293-313 | A changed PIN takes every admission back and tells every handler still waiting no; an unchanged one takes nothing. Reports exactly whether the PIN fits and a share is active. |
| LinkShareService.LinkShareStore.StopShare | src/link_share.rs:689-696 | Stops exactly when the id matches; then nobody may download, and the share is set aside for its rejections. |
| LinkShareService.LinkShareStore.CleanUpShare | src/link_share.rs:653-658 | Every handler still waiting on the share set aside has been told no. |
| LinkShareService.LinkShareStore.DecideRequest | src/link_share.rs:329-356 | An accepted request lets its address download, on an admission under the PIN in force and on consent; a rejected one is gone; a handler still listening has the answer. Reports exactly whether there was such a request. |
| LinkShareService.LinkShareStore.PrepareDownload | src/link_share.rs:412-446 | With a PIN the reply is what the failures since the last success make it; an admitted address has exactly this request, standing on its admission, and the handler it displaces is told no; any other reply admits nobody. |
| LinkShareService.LinkShareStore.RunCleanUp | src/link_share.rs:773-783 | The share loses the handler's own undecided request, under whatever key, and nothing else; nobody who listens loses a sender. |
| LinkShareService.LinkShareStore.Recheck | src/link_share.rs:462-473 | A handler told yes hands the files out only if its address has an accepted request now, justified by the log; the grant is exact. |
| LinkShareService.LinkShareStore.MayDownload | src/link_share.rs:487-507 | True exactly when the address has this request and it is accepted; then it stands on an admission under the PIN in force and on consent. |
| LinkShareService.LinkShareStore.DropHandler | src/link_share.rs:759-771 | Whenever a handler is dropped, a request of it that the share still holds has its clean-up due. |
| Staging.StreamToFile | src/link_share.rs:225-251 | The chunk loop finishes exactly when every chunk arrives and is written, the flush works and the request stays within the limit; then the size is the sum of the chunks. It reports an excess only when the bytes exceed the limit. |
| ShareStaging.ShareStore.StageForm | src/link_share.rs:178-270 | Refuses exactly the unacceptable forms; otherwise it holds exactly the files of the form with their sizes and the last settings. Every file it created is in the guard, and nothing else is handed to deletion. |
| ShareStaging.AcceptableMeans | src/link_share.rs:184-261 | A form is acceptable if and only if it has at most 103 readable fields, at most 100 files, all written, and at most the limit of bytes in all. |
| ShareStaging.ReadCounts | src/link_share.rs:219-262 | The total is the sum of the sizes of the stored files, each file field counting once. |
| ShareStaging.ShareStore.StartShare | src/link_share.rs:166-290 | For a form taken to its end with no other request in progress: it is committed exactly when it is acceptable, has a file and an address. Then the new share owns this form's files and the replaced share's files are handed to deletion; on every error path the active share stays and every file of the form is handed to deletion. Between such requests the files neither deleted nor handed to deletion are exactly those of the active share, 1 to 100 of them, with total equal to the sum of their sizes and within the limit. |
| ShareStaging.ShareStore.StopShare | src/link_share.rs:315-327 | Taken to its end, ends the share exactly when the id matches and hands all its files to deletion. |
| SendStaging.DistinctKeys | src/api.rs:1547-1551 | Deduplication keeps every (fingerprint, address, port) that occurs, each once, and only listed targets. |
| SendStaging.DistinctAppend | src/api.rs:902-904 | Deduplicating field by field and again over the whole equals deduplicating all listed targets once. |
| SendStaging.DeduplicateTargets | src/api.rs:1547-1551 | The single pass with a set of seen keys computes that deduplication. |
| SendStaging.UploadIds | src/api.rs:1002-1010 | The uploads are exactly the file fields of the form, with distinct ids. |
| SendStaging.StartsMeans | src/api.rs:864-1025 | A form starts sends if and only if every field can stand in it, targets come before files, there are 1 to 32 distinct targets, known when each file arrives, and 1 to 100 files, all written, of at most the limit of bytes in all. |
| SendStaging.SendRequests.TakeTargets | src/api.rs:876-917 | A target field is refused exactly when files came before it, it cannot be read, or it or the deduplicated union exceeds 32 targets. |
| SendStaging.SendRequests.TakeFile | src/api.rs:930-1010 | A file field is refused exactly when there are 100 files already, no target, an unknown target, a disk error or an excess of bytes; a refusal leaves no file of its own behind. |
| SendStaging.SendRequests.TakeForm | src/api.rs:864-1025 | The request starts exactly when every field is fine in its turn and there is a file (`StartsMeans` says when). Then the uploads are the 1 to 100 files of the form, total equals the sum of their sizes and is within the limit, and the 1 to 32 targets are deduplicated; otherwise no file of the form is left. |
| SendStaging.SendRequests.SendFiles | src/api.rs:818-858 | For a request taken to its end with no other in progress: on every path the live temporary files are those that were live before it. |
| StagingRaces.HoldersAreApart | src/link_share.rs:166-327 | However forms, stops, sends, clean-ups and dropped handlers interleave, no file is answered for twice: the files of the active share, of each open form and of each clean-up are disjoint, and those of open forms exist. |
| StagingRaces.EveryFileIsAccountedFor | src/link_share.rs:648-730 | In every run a file is left exactly when someone answers for it and no dropped handler has undone it, or when a clean-up that was dropped had it still to delete. |
| StagingRaces.LeftExactlyWhenUninterrupted | src/link_share.rs:648-730 | The files left are exactly those of the active share, the open forms and the running clean-ups, if and only if no interrupted handler has undone a file still answered for, or left one that is still there. |
| StagingRaces.ActiveFileIsGone | src/link_share.rs:288-290 | A file of the active share is gone exactly when the handler that put the share in force was dropped before it had disarmed its guard. |
| StagingRaces.FormFileEnds | src/link_share.rs:698-730 | Whatever happens next, a file of an open form stays with the form, becomes the active share's, or is deleted. |
| StagingRaces.CommitReplacesTheActiveShare | src/link_share.rs:270-290 | With any number of forms open, a form is put in force exactly when it is acceptable as a whole with a file and an address; it replaces the share active at that moment, all of whose files the handler then deletes. Otherwise the active share stays and the form's files are deleted. |
| StagingRaces.StartSendDecides | src/api.rs:1014-1025 | A send form beside any other requests starts its sends exactly when the whole form is fine; otherwise its files are deleted. |
| StagingRaces.InterruptedCommitLosesFiles | src/link_share.rs:288-290 | A run in which both promises fail: a second share replaces a first one of two files, and its handler is dropped while the first of them is being removed. The share in force has lost its only file, and the other file is left with nobody to delete it. |
| Ledger.LedgerIsBounded | src/api.rs:1155-1191 | From at most 100 finished restored entries, in every run: at most four sends hold a permit, the ledger has at most max(100, 4 + sends dropped in flight) entries, and a running send finds its own entry, unfinished. |
| Ledger.UnfinishedIsNeverEvicted | src/api.rs:1179-1190 | Admitting a new send never evicts an unfinished entry. |
| Ledger.PushStartsTrack | src/api.rs:1178-1191 | Pushing an admitted send puts exactly this entry, preparing, into the ledger under its id, and no other has that id. |
| Ledger.EntryFollowsItsSend | src/api.rs:1178-1262 | Whatever other sends do in between, the entry of a send that was not dropped is what its own steps since its push make of it, and the ledger finds it. |
| Ledger.OutgoingTransfers.PushEntry | src/api.rs:1178-1191 | At 100 or more entries the first finished one goes, then the new entry is appended. |
| Ledger.OutgoingTransfers.FindEntry | src/api.rs:1210-1216 | Finds the first entry with the id. |
| Ledger.OutgoingTransfers.RecordOutcome | src/api.rs:1210-1262 | Records the outcome in the entry found and in no other. |
| Sending.AcceptedTotal | src/api.rs:1445-1462 | The total of the accepted ids is exactly the sum of their sizes, without saturation, unless the target accepted a file it was not offered. |
| Sending.StreamChunks | src/api.rs:1537-1545 | Progress values of one file never pass the cap, and do not go back while the file is no longer than staged. |
| Sending.SendFiles | src/api.rs:1473-1517 | Files are sent in the order of the answer; success exactly when each is delivered; on an error the completed ids are those before it, with exactly their bytes. |
| Sending.PerformSend | src/api.rs:1348-1524 | Ok exactly when every accepted file of a non-empty, known set was delivered, or no session was needed for clipboard text; the completed ids are then the accepted ids and the total the sum of their sizes; after an error the completed bytes are the sum over the completed ids; progress is non-decreasing and within the accepted total. On every way out, a handler dropped at any upload included, the guard (lines 730-801) has used its channel, and the waiting task hears anything but completion exactly when an accepted file was not delivered. |
| Restore.BatchesAreDistinct | src/state.rs:100-124 | The batches of a group-by are the parsable batch ids that occur, each once. |
| Restore.MembersAreRecords | src/state.rs:102-104 | The members of a batch are the records with its id. |
| Restore.TransferredAtMostTotal | src/state.rs:107-112 | Transferred is at most total, whatever the sizes, and equals the completed sum exactly while that sum is below 2^64. |
| Restore.SummaryAppend | src/state.rs:103-117 | Merging one more record into an entry gives the summary of the longer batch: names in order, saturating total, Completed iff all are, first error present, clipboard disjunction. |
| Restore.UpdatedEntry | src/state.rs:103-117 | A record of a known batch changes that batch's entry and no other. |
| Restore.AddedEntry | src/state.rs:119-140 | A record of a new, parsable batch adds one entry at the end. |
| Restore.IgnoredRecord | src/state.rs:119-121 | A record whose batch id cannot be parsed changes nothing. |
| Restore.MergeRecord | src/state.rs:104-116 | Merging a record in place into the summary of a batch's records gives the summary of those and the record. |
| Restore.RestoreOutgoing | src/state.rs:99-143 | The single pass with its position index equals the plain group-by in first-appearance order. |
| Storage.Database.RecordTransfers | crates/localsendy-storage/src/lib.rs:206-214 | A batch is written whole or, if one size exceeds the table's range, not at all: the table is then unchanged. |
| Storage.PrecedesOrder | crates/localsendy-storage/src/lib.rs:226-233 | The order of batches by latest row, then id, is a strict total order. |
| Storage.ListingExists | crates/localsendy-storage/src/lib.rs:216-248 | On every table the listing query has an answer: the rows of the recent batches, each once, latest batch first and then by row id. |
| Storage.ListingIsUnique | crates/localsendy-storage/src/lib.rs:226-245 | The order of the query leaves only one answer. |
| Storage.RecentIsLimited | crates/localsendy-storage/src/lib.rs:226-234 | At most the limit, capped at 1000, of batches are recent. |
| Storage.RestoredLedgerIsSmall | crates/localsendy-storage/src/lib.rs:216-248 | A listing restores to at most one entry per batch of the limit, all of them finished. |
| History.UpsertNew | crates/localsendy-storage/src/lib.rs:275-306 | Recording rows with new ids stores exactly them and keeps all others. |
| History.RecordThenRestore | src/api.rs:1312-1346 | Recording a batch and restoring any listing that shows it gives one entry: same id and alias, the same names up to order, total the sum of the sizes, transferred the sum of the accepted sizes, Completed iff all were accepted. |
| History.NewestIsRecent | crates/localsendy-storage/src/lib.rs:226-234 | A batch later than every other row is within any limit but zero. |
| History.NewestIsRestored | src/state.rs:99-143 | After recording the newest batch, the answer of the listing restores it, for any limit but zero. |
| History.SizesPermute | crates/localsendy-storage/src/lib.rs:226-245 | Sums and names of a batch do not depend on the order the listing returns its rows in. |
| History.DerivedBatchIsTransfer | crates/localsendy-storage/src/lib.rs:399-404 | The migration's batch id of an outgoing row is the transfer id its row id begins with. |
| History.MigrationRestoresBatch | crates/localsendy-storage/src/lib.rs:392-442 | Migration from schema 1, 2 or 3 gives a row the batch id the program would have stored; from 2 and 3 the row is otherwise unchanged. |
| History.RecordsAreNamedAfterBatch | src/api.rs:1321-1329 | The rows of an outgoing batch are named after it, as migration relies on. |
| Restart.RestartedLedgerIsBounded | src/main.rs:120-124 | However the table came about, the ledger restored from it at startup stays within its bound in every later run. |
| Restart.CountDecides | src/api.rs:1206-1207 | Comparing the number of accepted files with the number offered decides whether all were accepted. |
| Restart.RestartShowsTheSend | src/api.rs:1204-1274 | After a restart the entry of a recorded send shows the status it showed before, whatever other sends did in between. It has the bytes of the outcome, hence those shown before if and only if no progress report stored later said otherwise; its total is that of all files offered, hence the one shown before if and only if the send never got to sending accepted files or the declined files are empty. |
| Restart.DeclinedFileComesBack | src/api.rs:1251-1274 | A send of files of 10 and 5 bytes of which the target takes the first: whether it arrives or breaks off, the entry shows a total of 10 before the restart and 15 after it. |
| Addresses.MaskedEqual | src/network.rs:358-376 | Two addresses have equal masked networks exactly when they agree on the prefix, capped at the width. |
| Addresses.DottedInjective | src/network.rs:260 | The dotted text of an IPv4 address determines it. |
| Discovery.DescriptionInjective | src/network.rs:258-263 | A description determines its endpoint, whatever characters the interface name has. |
| Discovery.AppendRecordEndpoints | src/network.rs:318-339 | Appends the endpoints of one record. |
| Discovery.OwnAll | src/network.rs:296-300 | New networks get the record as owner, known ones keep theirs. |
| Discovery.PlanDiscovery | src/network.rs:275-316 | The loop over the sorted records computes the plan of the fold. |
| DiscoveryCoverage.SkippedIsCovered | src/network.rs:287-295 | Each network of a skipped record belongs to a retained record earlier in (priority, name) order, who is its owner. |
| DiscoveryCoverage.NoPhysicalNetworkIsLost | src/network.rs:287-301 | In automatic mode every network of an Ethernet or Wi-Fi record is a network of a retained one of no greater rank. |
| DiscoveryCoverage.CoveringRecord | src/network.rs:290-293 | Covered-by names one retained physical record of smaller rank sharing a network; that record is active if and only if it has a non-link-local IPv4 address and is not point-to-point, or has an index and IPv6. What becomes of each covered network is `HiddenNetworks.NetworkIsHidden`. |
| DiscoveryCoverage.ActiveRecords | src/network.rs:303-307 | The active interfaces are exactly the used records that yield an endpoint. |
| DiscoveryCoverage.PlanIgnoresOrder | src/network.rs:280-281 | Permuting distinctly named records does not change the plan. |
| DiscoveryCoverage.EndpointsAreSorted | src/network.rs:309-310 | The endpoint list is strictly ascending by description, so free of repeats, and holds exactly the endpoints of the used records. |
| DiscoveryCoverage.EndpointListIsCanonical | src/network.rs:309-310 | Two plans have equal endpoint lists if and only if they have the same set of endpoints. |
| DiscoveryCoverage.Sockets.RefreshIfNeeded | src/network.rs:568-583 | Sockets are rebound exactly when the set of endpoints changed, and then follow the plan. |
| DiscoveryCoverage.PointToPointHidesNetwork | src/network.rs:149-159 | A point-to-point Ethernet adapter without IPv6 takes over a Wi-Fi adapter's network and leaves no endpoint, though discovery on the Wi-Fi adapter alone would have one. |
| HiddenNetworks.RetainedMeans | src/network.rs:287-301 | In automatic mode a physical record is retained if and only if it has no network, or has one that no physical record of smaller (priority, name) has. |
| HiddenNetworks.EndpointOf | src/network.rs:303-339 | In automatic mode an endpoint is in the plan if and only if the record of its name is in use (not physical, or retained in the sense above) and has that endpoint. |
| HiddenNetworks.RecordReaches | src/network.rs:287-339 | In automatic mode a record has an endpoint on a network it is on, with an address there for IPv4, if and only if it is in use and, for IPv4, not point-to-point or, for IPv6, has an index. |
| HiddenNetworks.NetworkIsReached | src/network.rs:287-339 | A network is reached, by a physical record or by any, if and only if some such record on it is in use and can: not point-to-point for IPv4, with an index for IPv6. |
| HiddenNetworks.NetworkIsHidden | src/network.rs:287-339 | A network that an adapter would be discovered on alone is hidden beside others if and only if no record in use on it can reach it. |
| HiddenNetworks.TwoOwnersHideNetwork | src/network.rs:287-295 | Three adapters of which the third is reported as covered by the first, which is active, while the second, point-to-point, hides the third one's other network: nothing reaches it, though the third alone would. |
| HiddenNetworks.ActiveCoverHidesIPv4 | src/network.rs:149-159 | A point-to-point adapter with an index and IPv6 covers a Wi-Fi adapter and is active, yet nothing reaches the IPv4 network that Wi-Fi alone would reach. |
| SavePaths.NormalizedIsPlain | src/storage_path.rs:71-86 | Whatever is typed, an accepted path has only normal components without backslash or control character, the first not starting with white space, and prints to at most 1024 bytes. |
| SavePaths.PrintedParses | src/storage_path.rs:100-109 | Printed plain components parse back to themselves, exactly when they print to at most 1024 bytes. |
| SavePathDots.DotsAreDropped | src/storage_path.rs:71-86 | A text within the limits, not absolute and without a ".." piece is refused if and only if its first piece is "."; otherwise it parses to the same names as the text without its "." pieces. |
| SavePathDots.TypedWithoutDots | src/storage_path.rs:71-86 | An accepted path typed again without its "." pieces keeps its names if and only if that leaves no white space at its end. |
| SavePathDots.DotInside | src/storage_path.rs:80-84 | A "." between two names is accepted and dropped. |
| SavePathDots.ADotIsAccepted | src/storage_path.rs:80-84 | The path a/./b is one: it names the directories a and b, against the error message. |
| SavePaths.SaveRoot.ResolveSubdirectory | src/storage_path.rs:14-31 | Succeeds exactly when the path parses and every prefix is a real directory, and returns that path and its printed form. |
| SavePaths.SaveRoot.CreateSubdirectory | src/storage_path.rs:33-50 | Succeeds exactly when the parent resolves, the name is valid, the entry is new and the disk agrees; then the tree gains exactly that directory, and otherwise nothing. |
| SavePaths.ResolvedStaysInside | src/storage_path.rs:18-30 | For any text and any tree, a resolved path leads, links followed, to the directory it spells beneath the root. |
| SavePaths.CreatedResolvesAgain | src/storage_path.rs:44-49 | The relative path of a created directory resolves to it, if and only if it has at most 1024 bytes. |
| SavePaths.ResolvesAgain | src/api.rs:323-336 | The relative path kept for the next start resolves to the same directory, if and only if it does not end in white space. |
| SavePaths.TrailingSpaceIsLost | src/main.rs:271-275 | Where it does not: a directory named with a trailing space can be chosen by typing a slash after it, and is looked up without the space at the next start. |
| SavePaths.ANameLosesItsSpace | src/main.rs:271-275 | The name "a" is one for which this happens. |
| Disposition.EncodedNameDecodes | src/link_share.rs:819-831 | For every byte string the encoded part is made of attr-chars and percent triplets only and decodes to the original bytes (section 3.2.1 of RFC 8187, section 2.1 of RFC 3986). |
| Disposition.EncodeInjective | src/link_share.rs:819-831 | Different names never encode alike. |
| Disposition.HeaderCarriesName | src/link_share.rs:830 | The header's extended parameter decodes to the name and holds no quote, separator, white space or control character. |

## Left out

- HTTP routing, multipart decoding, headers, status codes and error texts, TLS identity and the LocalSend
  protocol library: their events are the actions and scripts the models take.
- Sockets, interface enumeration and route lookup: interface records are the input of the plan.
- SQLite itself: a table is a map from row id to row, a transaction is all or nothing; constraints, indexes,
  settings and time stamps as text are not modelled.
- Parsing a UUID: `RestoreOutgoing` takes the parser as a parameter, and two batch ids that parse to one UUID
  stay two entries, as in the code.
- Incoming.Next: shutting the node down or restarting its server is no action; every action is the code
  between two lock scopes or await points.
- Finalizers.DeliveriesAreSafe: says nothing about files that a user or another program removes or renames in
  the destination directory.
- LinkShareAccess.GrantsAreJustified: an address is identified with its text, and the recheck after waiting
  goes by address and status, not by request id, as the code does.
- LinkShareService.LinkShareStore.StartShare: takes the files as given; their staging is `ShareStaging`.
- ShareStaging.ShareStore.StartShare: takes one form from its first field to its end. Forms side by side and
  dropped handlers are `StagingRaces`, where one field is one step; a field dropped half-way is there a field
  that breaks off.
- ShareStaging.ShareStore.StopShare: handing a file to deletion is recorded; that the deletion succeeds is not.
- StagingRaces.EveryFileIsAccountedFor: the clean-up of stale files at program start, which removes what is left,
  is not modelled.
- SendStaging.SendRequests.SendFiles: the sends between staging and clean-up are `Sending` and `Ledger`, not
  a body of this method.
- Sending.PerformSend: the remote session's cancellation is a request, which may itself fail or time out; that
  staged files do not grow is assumed only for progress not going back.
- Restart.RestartShowsTheSend: follows the entry until the send gives its permit back; a progress report stored
  after that is not modelled.
- HiddenNetworks.NetworkIsReached: an interface name belongs to one record, as the program collects them; other
  interfaces going up or down is a new list of records.
- History.RecordThenRestore: needs the batch to be among the listed ones (`NewestIsRecent` gives this for the
  latest batch) and its row ids to be new, which the fresh transfer id gives.
- SavePaths.SaveRoot.ResolveSubdirectory: the tree does not change while it is walked; paths are those of a
  Unix system.
- Device table, labels, probing, aliases, settings, the text-sending form, the web client and its server, and
  program start-up beyond restoring: simple filters, plumbing or case tables.
