# CDUS agent: a verified model

CDUS links a user's devices: it pairs them, keeps their clipboards and notifications in step and moves
files between them. This project models the parts of the agent where correctness depends on several
steps, several threads or two machines at once, and proves what they promise.

- **File transfer** (`file_transfer.rs`). `Sender.Step` and `Receiver.Step` are the two handlers, one
  branch for each await, database write, file operation and `?` exit. `System` runs them against each
  other over two FIFO channels, with durable records and a part file that survive; a `Cut` lies between
  sessions, where each side has returned or its process dies. On top of it stand conservation and
  agreement (`Flow`), crash safety and resume (`Resume`), progress (`Progress`), what a session delivers
  (`Course`, `Outcome`) and puts on the wire (`Wire`), what the two records say of each other (`Records`),
  what a process start does to resuming (`Restart`), what either handler leaves on record (`Exits`) and what
  a cancellation on one side makes of the other (`Cancel`), and where the guarantees stop (`Deletion`, with
  `OneByte`, a run that really happens).  `Intake` is about a receiver with any peer, honest or not.
  `SendLoop` and `ReceiveLoop` are the two loops as mutable objects, proved to do exactly what the step
  functions say for every sequence of polls, reads, file and database outcomes. `ChunkPlan`, `Disk` and
  `Patience` are the plan, the bytes on disk and the inactivity limit; `Manager`, `Destination` and
  `SessionKey` the bookkeeping around a transfer.
- **Pairing** (`pairing.rs`). `Pairing` is the confirmation protocol of two asymmetric loops, with the
  shortcut of a side that already trusts its peer and the refusal of a stale reconnect; `Qr` prints and
  reads the pairing link.
- **Clock, clipboard, alerts** (`lib.rs` of the agent, and the mobile binding). `Clock` is the
  compare-and-swap loop under any interleaving; `Clipboard` the two last-writer-wins versions, and
  `Announce` what the daemon lets out; `Alerts` the notification throttle.
- **Framing** (`libp2p_manager.rs` and the file stream worker): length-prefixed messages.

`dafny verify dfyconfig.toml` checks everything.

## How to read the model

- A run is a sequence of states, each following from the one before by one event; the theorems about
  runs quantify over all of them, with every interleaving, timeout, failed write and cut.
- BLAKE3 is an arbitrary function `hash`. Where content equality is claimed, collision-freeness is an
  explicit hypothesis (`Outcome.CollisionFree`). The session cipher is any pair with `open(seal(x)) = x`.
- The store is the one of `store/mod.rs`: `update_bytes_confirmed` sets, `mark_chunk_verified` updates an
  existing row, `insert_chunks_batch` is one transaction that ignores rows already there, and
  `get_incomplete_chunks` lists unmarked rows. A started statement is done or not done. Opening the store, at
  every process start, marks pending, awaiting, running and paused transfers as failed; that is what a
  `Cut` does to a side that dies, at any moment and as often as one likes.
- `System.tainted` records that the part file was removed, renamed away or replaced (the destination is
  computed anew in every session). Crash safety excludes such runs; agreement does not, and neither does
  `Outcome.DeliveredIff`, which speaks of the part file the session opened.
- In the pairing protocol a session frame is one whose first byte is none of 1, 0 and 0xFF.

## What the proofs found

- A receiver that dies never resumes selectively. Verified chunks and confirmed bytes survive on disk and in
  the record (`Resume.CrashSafe`), but the process start marks the record failed, and until the receive loop
  runs again every answer asks for everything from the first byte on (`Restart.AsksForEverything`). The
  missing list and the byte offset serve only receivers whose process lived on and that left through `?` or
  were cancelled; a lost connection, silence or a peer's error do not leave such a record
  (`Restart.ResumableIff`). The full transfer then delivers (`Restart.RestartDelivers`).
- Resuming a transfer that is complete is not refused. If the user accepts and the sender dies before its
  first status update, the sender's record says complete and the receiver's failed, from every completed
  state (`Records.ReopeningBreaksAgreement`, and as a run `Records.DisagreementHappens`). The records go on
  agreeing exactly if such a start is refused (`Records.AgreementIffGuarded`); that a complete sender's
  file was delivered holds in any case (`Records.CompleteMeansDelivered`).
- The database may claim what the disk no longer has: a refused file is removed while its chunk rows
  stay marked and its bytes stay confirmed (`Deletion.ClaimsCanFail`); `Deletion.ClaimsAfterRemovalIff`
  says exactly when the claims survive. If the status update after the rename fails, the record stays "in
  progress" and claims everything for as long as the process lives (`Deletion.StaleRecord`). A session that
  starts from a record that claims everything asks for nothing and delivers exactly if the part file it
  opens is the source (`Outcome.ClaimedDeliversIff`), so this one fails although the file had arrived
  (`Deletion.StaleRecordFails`); a restart, or the failure itself, makes the next one send everything again
  (`Outcome.RetryDelivers`).
- A cancellation does not mean the same in both directions. The sender's pauses both sides
  (`Cancel.SenderCancelPausesBoth`). The receiver's pauses the sender exactly if some chunk is still
  unanswered; a sender with nothing left to send or to hear about reads it in place of the final answer and
  fails, while the receiver's record says paused (`Cancel.ReceiverCancelPausesIff`, as a run
  `Cancel.CancelDisagrees`).
- An ordinary text ends the desktop daemon. After it has claimed and persisted an update it cuts the text at
  byte 20 for its audit log; if that is inside a character the thread ends before the text is written or
  broadcast, and takes no later message (`Clipboard.TrapEndsDaemon`, `Clipboard.TrapIsNotBroadcast`: eighteen
  letters, a space and an accented e). It survives a series exactly if every update that is newest when it
  arrives can be cut (`Clipboard.SurvivesIff`), and every order of it exactly if every update newer than
  what it has can (`Clipboard.SurvivesEveryOrderIff`). The mobile binding does not cut.
- A request with chunk size 0 and a positive length keeps the receiver planning for ever: an iteration
  advances exactly if the size is positive (`ChunkPlan.AdvancesIff`, `ChunkPlan.ComputeChunkPlan`).
- The responder's loop can swallow the initiator's first session frame: exactly when it has heard the
  initiator's byte before (`Pairing.ResponderReadsSyncIff`), at most once (`Pairing.LeavesOnce`), and both
  sides are paired all the same; the frame is lost to the session (`Pairing.ResponderMayReadSync`).
- Over a link that loses a frame one side can end paired alone (`Pairing.LossCanSplit`).
- With nothing persisted, the desktop ignores an update stamped 0 and the mobile binding takes it
  (`Clipboard.SameDecisionsIff`). Different contents with the same newest stamp leave replicas apart
  (`Clipboard.ConvergesIff`), and on desktops so does an older new text that cannot be cut
  (`Clipboard.DaemonsConvergeIff`).
- A cleaned file name can hold ".." again, because ".." is removed before the characters that may
  separate two dots (`Destination.DotDotCanReturn`, and exactly when: `Destination.SafeNameDotDotIff`).
  It is still one path component.
- The 32-bit chunk index stops identifying chunks, and the 32-bit frame length stops framing bodies, at
  2^32 (`ChunkPlan.IndexedIff`, `Framing.FrameRoundTripIff`).

## Model

| member | source | states |
|---|---|---|
| Records.Agreement | crates/cdus-agent/src/file_transfer.rs:1177-1188 | In every run (faults, deaths of either process with the sweep at its next start, removed part files included) in which no session is started for a transfer whose record says complete: whenever the sender's durable status is complete, so is the receiver's, and the destination has the recorded hash; without collisions it is the source |
| Records.CompleteMeansDelivered | crates/cdus-agent/src/file_transfer.rs:1177-1188 | In every run at all, a sender status of complete means that the destination has the recorded hash |
| Records.AgreementIffGuarded | crates/cdus-agent/src/lib.rs:640-675 | Once a transfer is complete, the two records agree in every continuation exactly if starting it again is refused |
| Records.ReopeningBreaksAgreement | crates/cdus-agent/src/file_transfer.rs:969-977 | From every state between sessions with a complete sender record, one more accepted start in which the sender dies before its first status update leaves complete against failed |
| Records.DisagreementHappens | crates/cdus-agent/src/lib.rs:640-675 | A run from a fresh transfer that ends so |
| Records.SenderSettles | crates/cdus-agent/src/file_transfer.rs:911-930 | In every run, however the sending handler returns, its record is not pending, awaiting or in progress any more |
| Flow.FinalAckMeansComplete | crates/cdus-agent/src/file_transfer.rs:1177-1188 | Since the final ack was read, both records say complete and the destination has the recorded hash |
| Flow.AckConservation | crates/cdus-agent/src/file_transfer.rs:1005-1171 | While chunks are being sent, `pending_acks` never exceeds 50, and while the receiver is in its loop it equals chunks on the wire plus the chunk in hand plus acks on the wire |
| Flow.FinalAckIsFinal | crates/cdus-agent/src/file_transfer.rs:1115-1188 | An ack that waits for a sender in its last read is the receiver's final one, alone on the wire, with no chunk left anywhere: it can never be a chunk ack |
| Flow.StepKeepsInv | crates/cdus-agent/src/file_transfer.rs:739-870 | Every event of either handler, and every cut with or without the deaths of the processes, keeps conservation, the order of opening and closing, and the agreement of the two records |
| Resume.CrashSafe | crates/cdus-agent/src/file_transfer.rs:779-786 | After any number of sessions ended by returns or by process deaths between any two steps, while the part file stays in place, every verified chunk and every byte below `bytes_confirmed` is on disk exactly as in the source |
| Resume.ResumeRule | crates/cdus-agent/src/file_transfer.rs:667-687 | By missing list or by byte offset, every chunk the receiver does not ask for is on disk |
| Resume.NextSessionCovers | crates/cdus-agent/src/file_transfer.rs:1022-1031 | Every byte of the file is on disk or in a chunk that the next session selects |
| Resume.NoChunkMismatch | crates/cdus-agent/src/file_transfer.rs:757-778 | No chunk of an honest sender ever meets the hash-mismatch branch, in any run |
| Resume.StepKeepsInv | crates/cdus-agent/src/file_transfer.rs:779-792 | Every event keeps: what is marked or confirmed is on disk, and chunks in flight are ordered so that no confirmed prefix has a hole, torn writes included |
| Intake.OnlyGenuine | crates/cdus-agent/src/file_transfer.rs:757-792 | In every session with any peer, and whatever fails, each chunk marked, the confirmed offset and each byte of the part file are as before the session or come from a chunk that was read, opened and had the hash it carries |
| Intake.WrittenIff | crates/cdus-agent/src/file_transfer.rs:757-778 | A chunk that is read goes on to be written exactly if it opens and its plaintext has the hash it carries |
| Intake.ForgedEndsRun | crates/cdus-agent/src/file_transfer.rs:767-778 | A chunk that opens to something else: whatever comes later, the error is all that is sent, nothing of it is written, marked or confirmed, and once recorded the transfer is failed and the part file gone |
| Intake.SealedEndsRun | crates/cdus-agent/src/file_transfer.rs:759-766 | A chunk that does not open ends the session at once as failed, without a word |
| Intake.StoresGenuine | crates/cdus-agent/src/file_transfer.rs:779-801 | Any series of genuine chunks, in any order: all are written at their offsets, marked if they have rows, and acknowledged with their ends, the last of which is what is confirmed |
| Intake.StoresUntilForged | crates/cdus-agent/src/file_transfer.rs:757-801 | With a forged chunk behind them, exactly the chunks before it are stored and acknowledged, then the error is sent |
| Progress.NeverStuck | crates/cdus-agent/src/file_transfer.rs:739-831 | A fault-free accepted session that is not finished always has a step some party can take |
| Progress.WorkDrops | crates/cdus-agent/src/file_transfer.rs:1008-1188 | Every fault-free step of either handler strictly shrinks one measure of the work left |
| Outcome.SessionProgress | crates/cdus-agent/src/file_transfer.rs:1008-1188 | After any history, a fault-free session, even one whose destination moves, can always be extended until both handlers return, and has at most `Work` steps |
| Outcome.SessionFinishes | crates/cdus-agent/src/file_transfer.rs:1008-1188 | From wherever a fault-free session has come to, there is one that finishes on the same part file |
| Outcome.SessionOutcome | crates/cdus-agent/src/file_transfer.rs:802-831 | A finished fault-free session is complete on both sides with what it assembled (the wanted chunks over the part file it opened) as destination if that has the recorded hash, else failed on both sides with the part file removed |
| Outcome.DeliveredIff | crates/cdus-agent/src/file_transfer.rs:705-727 | It delivers the source exactly when the part file it opened, wherever the recomputed destination put it, and the wanted chunks together make it up |
| Outcome.ResumeDelivers | crates/cdus-agent/src/file_transfer.rs:667-687 | After any sessions, ended by returns or deaths, that left the part file in place, the next fault-free session that opens the same content ends complete on both sides with the source as destination |
| Outcome.OpenedInPlace | crates/cdus-agent/src/file_transfer.rs:705-727 | Unless the destination moved, a session opens the part file that was there when it started |
| Outcome.CanStillDeliver | crates/cdus-agent/src/file_transfer.rs:667-687 | However often a transfer was interrupted, a session exists that delivers it |
| Outcome.RetryDelivers | crates/cdus-agent/src/file_transfer.rs:667-687 | A transfer that cannot be taken up, for instance a failed one, is sent again in full and delivers the source, over whatever part file no longer than the source it opens |
| Outcome.ClaimedDeliversIff | crates/cdus-agent/src/file_transfer.rs:667-687 | A session from a record, in progress or paused, that claims every chunk and byte delivers the source exactly if the part file it opens is the source, else fails on both sides and removes that file |
| Restart.AsksForEverything | crates/cdus-agent/src/store/mod.rs:249-262 | In every run, after the receiver died and until it enters its loop again, its answer has offset 0 and no missing list, and every chunk is selected |
| Restart.ResumableIff | crates/cdus-agent/src/file_transfer.rs:739-891 | A receiver at work leaves a record that will be taken up where it stopped exactly if it leaves through `?` or is cancelled on either side |
| Restart.RestartDelivers | crates/cdus-agent/src/store/mod.rs:249-262 | From every state, after the receiver dies, a session exists that delivers the source if the part file is not longer than it |
| Restart.SweepsExactly | crates/cdus-agent/src/store/mod.rs:249-262 | A start changes of what is durable only that pending, awaiting, running and paused transfers are failed |
| Outcome.SafeReassembles | crates/cdus-agent/src/file_transfer.rs:667-687 | A durable record and its disk, with what the resume rule asks for, make up the source |
| Wire.SendsExactly | crates/cdus-agent/src/file_transfer.rs:667-687 | A finished fault-free session has sent exactly the chunks the record lacked at its start, each once and in order: of a transfer in progress or paused those whose rows are unmarked or, if none is, those that end above the confirmed offset; of any other all |
| Wire.SendsNothingElse | crates/cdus-agent/src/file_transfer.rs:1022-1031 | At no point has it sent anything else |
| Exits.SenderExit | crates/cdus-agent/src/file_transfer.rs:1008-1197 | In every run, a streaming sender returns paused exactly if it was cancelled or read a cancellation while waiting for acks, complete exactly if it read an ack in its last read, else failed; one that waits for the answer declined exactly if refused, else failed; and only its own cancellation is announced |
| Exits.SenderLeavesIff | crates/cdus-agent/src/file_transfer.rs:1007-1197 | It returns exactly on a request, a failure, an error or cancellation read, the twelfth silence in a row, or any answer to its claim |
| Exits.AnswerTaken | crates/cdus-agent/src/file_transfer.rs:980-1006 | Only an acceptance starts streaming, at the first chunk, with nothing pending and the receiver's offset recorded |
| Exits.ReceiverExit | crates/cdus-agent/src/file_transfer.rs:741-890 | In every session with any peer, a receiver at work returns paused exactly if cancelled on either side, complete exactly after its final answer, in progress exactly through `?`, else failed; the part file goes only after a mismatch; and only its own cancellation is announced |
| Exits.EarlyReceiverExit | crates/cdus-agent/src/file_transfer.rs:568-739 | Before that only the decision or its absence is recorded and nothing on disk changes |
| Exits.RefusalIff | crates/cdus-agent/src/file_transfer.rs:767-841 | A transfer is refused and its part file removed exactly after a chunk or a file that has another hash, and refused without that exactly after an error from the peer |
| Cancel.SenderCancelPausesBoth | crates/cdus-agent/src/file_transfer.rs:1008-1015 | A sender cancelled at any moment of any run while the receiver is at work: both records end paused, and the receiver's can be taken up, after a bounded number of fault-free steps |
| Cancel.ReceiverCancelPausesIff | crates/cdus-agent/src/file_transfer.rs:742-751 | A receiver cancelled at any moment while it reads: the sender ends paused exactly if some chunk was not yet sent or not yet taken, else failed |
| Cancel.CancelDisagrees | crates/cdus-agent/src/file_transfer.rs:1177-1197 | A run in which the receiver is cancelled after its last ack and the records end paused and failed |
| Deletion.ClaimsAfterRemovalIff | crates/cdus-agent/src/file_transfer.rs:808-817 | When the part file goes, by removal or rename, the record's claims about the disk hold exactly if it claims nothing |
| Deletion.ClaimsCanFail | crates/cdus-agent/src/file_transfer.rs:808-817 | A concrete run after which the only chunk is marked verified and confirmed and nothing of it is on disk |
| Deletion.StaleRecord | crates/cdus-agent/src/file_transfer.rs:818-820 | A run in which the status update after the rename fails and both handlers return: the record, still in progress, claims everything for a part file that is gone |
| Deletion.StaleRecordFails | crates/cdus-agent/src/file_transfer.rs:818-820 | After it, in the same processes, a session without any fault fails on both sides, although the file had arrived |
| ChunkPlan.ComputeChunkPlan | crates/cdus-agent/src/file_transfer.rs:463-478 | The planning loop, with its 32-bit index: it is done within a number of iterations exactly if the file is empty or the size is positive and the chunks are no more than that, and then it has the closed form; with size 0 it only adds empty chunks |
| ChunkPlan.AdvancesIff | crates/cdus-agent/src/file_transfer.rs:467-475 | An iteration gets closer to the end exactly if the chunk size, which the receiver takes from the request, is positive |
| ChunkPlan.PlanShape | crates/cdus-agent/src/file_transfer.rs:463-478 | ceil(total / size) chunks, chunk i starting at i * size inside the file |
| ChunkPlan.PlanTiles | crates/cdus-agent/src/file_transfer.rs:463-478 | The chunks are non-empty, start at 0, follow one another and end at the file's end |
| ChunkPlan.PlanPartitions | crates/cdus-agent/src/file_transfer.rs:463-478 | Every byte of the file lies in exactly one chunk |
| ChunkPlan.IndexedIff | crates/cdus-agent/src/file_transfer.rs:466-475 | The index of every chunk is its position exactly when there are at most 2^32 chunks |
| Transfer.ConfigOfPlan | crates/cdus-agent/src/file_transfer.rs:955-960 | Every transfer of at most 2^32 chunks satisfies the hypotheses of the theorems about runs |
| Disk.ReassemblyIff | crates/cdus-agent/src/file_transfer.rs:779-783 | Writing any chunks at their offsets, in any order with any repeats, yields the source exactly when the starting file is not too long and already has what the chunks leave out |
| Disk.ReassembleAll | crates/cdus-agent/src/file_transfer.rs:779-783 | All chunks, in any order with any repeats, over a file no longer than the source yield the source |
| Disk.WriteAllBytes | crates/cdus-agent/src/file_transfer.rs:779-783 | What each byte of the file is after a series of chunk writes |
| SendLoop.Handler.constructor | crates/cdus-agent/src/file_transfer.rs:991-1006 | The accepted transfer starts at its first chunk with the answer's resume data and nothing pending |
| SendLoop.Handler.AwaitAcks | crates/cdus-agent/src/file_transfer.rs:1033-1089 | The window and drain loop: either it returns from the handler or `pending_acks` is below the limit, and it stays on the run the step function prescribes |
| SendLoop.Handler.OneChunk | crates/cdus-agent/src/file_transfer.rs:1008-1113 | One turn of the loop over the plan: poll, select, wait for room, read, seal and send, or return on the first failure |
| SendLoop.Handler.Send | crates/cdus-agent/src/file_transfer.rs:1005-1199 | The whole sending part, for any script of polls, reads, file accesses and writes with their failures, ends in the state and with the messages that the sender's step function prescribes |
| ReceiveLoop.Handler.StoreChunk | crates/cdus-agent/src/file_transfer.rs:779-801 | Write (in any number of pieces), confirm, mark and acknowledge, in this order; the first failure leaves as the source does, with or without the status fix-up |
| ReceiveLoop.Handler.CompleteFile | crates/cdus-agent/src/file_transfer.rs:802-831 | Check the whole file, then rename, record and answer, or report, record and remove, with every `?` exit between them |
| ReceiveLoop.Handler.Receive | crates/cdus-agent/src/file_transfer.rs:740-891 | The receive loop, for any script of polls, reads, file operations and database updates with their failures, ends in the state and with the messages that the receiver's step function prescribes |
| Patience.ReceiveBound | crates/cdus-agent/src/file_transfer.rs:740-870 | With k messages read, the receive loop makes at most 12 * (k + 1) reads, whatever the messages and the other outcomes are, and if it has made that many it has been left |
| Patience.WaitBound | crates/cdus-agent/src/file_transfer.rs:1033-1089 | The same bound for each of the sender's window and drain loops, whatever the messages are |
| Patience.SenderGivesUpIff | crates/cdus-agent/src/file_transfer.rs:1034-1093 | Any other message starts the count anew, and then exactly the twelfth silence in a row makes the sender give up |
| Patience.ReceiverGivesUpIff | crates/cdus-agent/src/file_transfer.rs:848-865 | So in the receive loop |
| Patience.MessageResets | crates/cdus-agent/src/file_transfer.rs:757-850 | Every message after which it goes on reading or writing starts its count anew |
| Patience.StartsPatient | crates/cdus-agent/src/file_transfer.rs:1033-1115 | Every loop that waits starts with a fresh count |
| Patience.AcksCount | crates/cdus-agent/src/file_transfer.rs:1034-1063 | Waiting takes as many acks as bring the pending count to 49 or, at the end, to 0, and no more; the last one says what is confirmed |
| Manager.NoSendBlocks | crates/cdus-agent/src/file_transfer.rs:111-209 | Under any interleaving of the manager's calls no bounded(1) decision or cancel channel ever carries two messages, those still listed are empty, and the power lock is held only while the count is positive |
| Manager.AnswerDelivered | crates/cdus-agent/src/file_transfer.rs:111-137 | The handler that made an offer hears the first answer or cancellation for its transfer after that, unless a newer offer replaced it, and nothing else |
| Manager.CancelDelivered | crates/cdus-agent/src/file_transfer.rs:139-209 | A registered handler hears a cancellation exactly if one comes before it unregisters and before the same transfer is registered again, and hears it once |
| Manager.AwakeIffActive | crates/cdus-agent/src/file_transfer.rs:152-172 | If the system grants the lock whenever asked, it is held exactly while the count is positive |
| Manager.AwakeIffGranted | crates/cdus-agent/src/file_transfer.rs:152-170 | With refusals, it is held exactly if it was granted to the call that raised the count from 0 and the count has stayed up since |
| Manager.CountIsHolders | crates/cdus-agent/src/file_transfer.rs:139-198 | The count is the number of handlers between register and unregister, under any interleaving; when none is left the lock is released |
| Manager.LeakKeepsCount | crates/cdus-agent/src/file_transfer.rs:637-707 | A handler that returns without unregistering, as the incoming one does on a `?`, keeps the count positive for good |
| Manager.FileTransferManager.HandleDecision | crates/cdus-agent/src/file_transfer.rs:111-130 | The waiting channel, if there is one, gets the answer and is no longer listed |
| Manager.FileTransferManager.RegisterTransfer | crates/cdus-agent/src/file_transfer.rs:139-172 | A new cancel channel is listed for the transfer, the count rises, and the lock is asked for when it becomes 1 |
| Manager.FileTransferManager.UnregisterTransfer | crates/cdus-agent/src/file_transfer.rs:174-198 | The token goes, the count falls but not below 0, and the lock is released when it becomes 0 |
| Manager.FileTransferManager.AddPendingDecision | crates/cdus-agent/src/file_transfer.rs:132-137 | A new empty channel is listed for the transfer, replacing an older one |
| Manager.FileTransferManager.CancelTransfer | crates/cdus-agent/src/file_transfer.rs:200-209 | The cancel channel gets its one message and a waiting decision is answered with a refusal |
| Manager.OutgoingBalances | crates/cdus-agent/src/file_transfer.rs:901-911 | Whatever others do meanwhile, a sending handler is counted once and no longer when it returns |
| Manager.FileTransferManager.HandleOutgoingTransfer | crates/cdus-agent/src/file_transfer.rs:893-930 | Around an inner function that ends in any way, while other threads make any calls, the manager goes through register, those calls and unregister, and with a working store the status is fixed up |
| Manager.FixUp | crates/cdus-agent/src/file_transfer.rs:912-927 | A status that looks active becomes failed or paused, others stay |
| Destination.SafeNameIsComponent | crates/cdus-agent/src/file_transfer.rs:481-489 | Whatever name arrives, the cleaned name is one non-empty path component without forbidden characters or leading dot |
| Destination.ProperNameKept | crates/cdus-agent/src/file_transfer.rs:481-489 | A name that is such a component and has no ".." is kept as it is |
| Destination.RemoveDotDotWorks | crates/cdus-agent/src/file_transfer.rs:481-482 | The first pass leaves no two dots together |
| Destination.SafeNameKeepsRest | crates/cdus-agent/src/file_transfer.rs:481-489 | Cleaning keeps every character that is neither a dot nor one of the nine forbidden ones, in order; a name without any becomes "unnamed_file" |
| Destination.SafeNameKeepsDots | crates/cdus-agent/src/file_transfer.rs:481-489 | A name without ".." that starts with such a character loses the forbidden ones only |
| Destination.SafeNameDotDotIff | crates/cdus-agent/src/file_transfer.rs:481-485 | The cleaned name has ".." exactly if, after a kept character, two dots are separated by forbidden characters only |
| Destination.DotDotCanReturn | crates/cdus-agent/src/file_transfer.rs:481-485 | "a.:.b" has no ".." and becomes "a..b" |
| Destination.CandidatesDistinct | crates/cdus-agent/src/file_transfer.rs:493-502 | The numbered names are pairwise distinct |
| Destination.NumberBeforeExtension | crates/cdus-agent/src/file_transfer.rs:494-501 | The number stands, in parentheses, before the last extension |
| Destination.NumberAtEnd | crates/cdus-agent/src/file_transfer.rs:494-501 | A name without extension, or that begins with its only dot, gets it at the end |
| Destination.NumberingExample | crates/cdus-agent/src/file_transfer.rs:494-501 | "a.txt" becomes "a (1).txt" |
| Destination.SafeDestination | crates/cdus-agent/src/file_transfer.rs:491-504 | The loop ends within one probe more than there are files, with the first numbered name that does not exist, itself a proper component |
| SessionKey.SameMaterialIff | crates/cdus-agent/src/file_transfer.rs:42-80 | Two different devices with all keys on record hash the same material exactly if each has the other's right key |
| SessionKey.MissingRecordDiffers | crates/cdus-agent/src/file_transfer.rs:42-80 | A device without a record of the other's key hashes something else than the other |
| Pairing.PairingSafety | crates/cdus-agent/src/pairing.rs:1879-2047 | In every run, with any losses, a side stores its peer only if it did not hold it, its own user accepted and it has read byte 1; and a side has sent byte 1 only if its user accepted or it held the peer |
| Pairing.StaleReconnectStoresNothing | crates/cdus-agent/src/pairing.rs:1881-1892 | A reconnect to a responder that does not hold the initiator never stores anything there |
| Pairing.TrustedAdmission | crates/cdus-agent/src/pairing.rs:2442-2471 | In every run, with any faults, a side that held its peer is in a session only if the first frame it read was byte 1 |
| Pairing.StaleReconnectRefused | crates/cdus-agent/src/pairing.rs:2456-2466 | An initiator that reconnects to a responder that has dropped it never gets a session |
| Pairing.TrustedSessionIff | crates/cdus-agent/src/pairing.rs:2029-2046 | While nothing breaks, a settled side that held its peer has a session exactly if the frame it waited for came and was byte 1 |
| Pairing.TrustedSidesMeet | crates/cdus-agent/src/pairing.rs:2029-2046 | Two sides that hold each other have a session exactly if the other's frame came |
| Pairing.TurnedAwayIff | crates/cdus-agent/src/pairing.rs:1881-1892 | While nothing breaks, 0xFF is sent exactly by a responder asked to reconnect by one it does not hold; any other side without its peer fails only on a refusal or after a frame read |
| Pairing.PairingAgreement | crates/cdus-agent/src/pairing.rs:1949-2027 | Over a lossless link between unpaired sides, once both loops are left both have stored the peer or neither has, and for a pairing intent they have exactly when both users accepted |
| Pairing.LossCanSplit | crates/cdus-agent/src/pairing.rs:1979-2003 | A run in which one read is lost and the initiator alone ends paired |
| Pairing.InitiatorSeesNoSync | crates/cdus-agent/src/pairing.rs:2360-2380 | The initiator's loop never consumes a session frame |
| Pairing.ResponderReadsSyncIff | crates/cdus-agent/src/pairing.rs:1979-2009 | Without losses the responder's loop reads a session frame exactly if it has heard the initiator's byte before; then its user has accepted, and the read makes it leave with the peer stored |
| Pairing.LeavesOnce | crates/cdus-agent/src/pairing.rs:1979-2009 | Once out of its loop the responder never reads there again, so at most one session frame is lost |
| Pairing.ResponderMayReadSync | crates/cdus-agent/src/pairing.rs:1979-2009 | A concrete run in which the responder's loop consumes the initiator's first session frame, and both sides are paired |
| Pairing.ResponderTurn | crates/cdus-agent/src/pairing.rs:1957-2007 | One turn, decision before read, does what the protocol's two half-turns say |
| Pairing.InitiatorTurn | crates/cdus-agent/src/pairing.rs:2360-2404 | One turn, read before decision, does what the protocol's two half-turns say |
| Pairing.ConfirmationLoop | crates/cdus-agent/src/pairing.rs:2336-2440 | The loop of either role, for any decisions and reads, sends what the protocol says and stores the peer exactly when it does |
| Qr.LinkRoundTripIff | crates/cdus-agent/src/pairing.rs:1228-1286 | For unreserved id and secret, any name, port and addresses, parsing the printed link returns the same five values exactly if id and secret are non-empty and every address is non-empty and comma-free |
| Qr.EncodeRoundTrip | crates/cdus-agent/src/pairing.rs:1228-1235 | Decoding a percent-encoded text returns it, for any octets |
| Qr.UnreservedUnchanged | crates/cdus-agent/src/pairing.rs:1228-1235 | Unreserved text is printed as it is |
| Qr.EverySpellingDecodes | crates/cdus-agent/src/pairing.rs:1258 | However a text is spelled in a query, octet by octet, with plus signs and hexadecimal digits of either case, it reads as that text |
| Qr.ParseQrPayload | crates/cdus-agent/src/pairing.rs:1243-1286 | From the whole link: the checks, the loop over names and values, the default port, the non-empty addresses and the error returns, as `Qr.Parse` defines them |
| Qr.ParseIff | crates/cdus-agent/src/pairing.rs:1247-1286 | When each of the four errors arises, and that of every name the last value counts, with port 5200 if it is missing or no number below 2^16 |
| Qr.UrlParts | crates/cdus-agent/src/pairing.rs:1247-1256 | A link with a host reads as its scheme, host, path and query |
| Qr.PathOnly | crates/cdus-agent/src/pairing.rs:1247-1256 | One without reads as its scheme, path and query |
| Qr.OfferedIff | crates/cdus-agent/src/pairing.rs:1216-1226 | A listen address offers its second component unless that is 127.0.0.1 or begins with 172.17. |
| Qr.OfferedIps | crates/cdus-agent/src/pairing.rs:1216-1226 | The addresses in a link are exactly those that qualify, each once |
| Qr.GenerateQrPayload | crates/cdus-agent/src/pairing.rs:1205-1237 | What is printed for a device reads back as its id, secret, name (or "Unknown"), port and qualifying addresses |
| Decimal.PrintThenParse | crates/cdus-agent/src/pairing.rs:1269 | A printed number parses as a port exactly if it is below 2^16 |
| Decimal.SignAndZeros | crates/cdus-agent/src/pairing.rs:1269 | A plus sign and a leading zero are ignored, nothing, a sign alone and a minus sign refused |
| Clock.AtomicClock.Claim | crates/cdus-agent/src/lib.rs:42-53 | The retry loop under interference: the clock never falls, ends at least at the offered stamp, and an accepted stamp was newer than the clock and is the clock's value |
| Clock.ClockMonotone | crates/cdus-agent/src/lib.rs:42-53 | For any number of threads and any interleaving with spurious failures the clock never decreases |
| Clock.AcceptedRise | crates/cdus-agent/src/lib.rs:42-53 | Accepted stamps strictly rise in the order of acceptance, so none is accepted twice |
| Clock.ClockIsMaximum | crates/cdus-agent/src/lib.rs:42-53 | Once all calls have returned the clock is the maximum of the initial value and all stamps offered |
| Clock.EveryStepCounts | crates/cdus-agent/src/lib.rs:47-50 | Without spurious failures every step of a call shrinks its remaining work, and every retry the distance to the clock |
| Clipboard.Desktop.constructor | crates/cdus-agent/src/main.rs:272-279 | The clock starts at the persisted timestamp, or at 0 |
| Clipboard.Desktop.SetClipboard | crates/cdus-agent/src/lib.rs:160-294 | A peer's update is taken exactly if the daemon lives, no guard holds and it is strictly newer: claimed and persisted, then cut for the log, and written only if the cut does not end the thread |
| Clipboard.Desktop.ClipboardChanged | crates/cdus-agent/src/lib.rs:121-159 | A local change follows the same rule and, if the cut does not end the thread, is broadcast unless it is local-only |
| Clipboard.Desktop.Receive | crates/cdus-agent/src/lib.rs:160-294 | A series of peer updates is handled one by one until the thread ends |
| Clipboard.Desktop.ServeAll | crates/cdus-agent/src/lib.rs:121-294 | Local changes and peer updates, each with its own checks, are handled in the order they arrive |
| Announce.AnnouncesExactly | crates/cdus-agent/src/lib.rs:121-294 | Over any such series the daemon broadcasts exactly the local changes that pass the lockout and blank checks, are newest when they arrive, are reached and left alive, and are not local-only; what it writes, what it persists and whether it lives likewise |
| Announce.LocalOnlyStays | crates/cdus-agent/src/lib.rs:144-153 | Whatever it broadcasts was a local change not marked local-only |
| Announce.GuardedChangesNothing | crates/cdus-agent/src/lib.rs:165-180 | While any of its four checks forbids it, an update from a peer changes nothing |
| Clipboard.Desktop.Excerpt | crates/cdus-agent/src/lib.rs:193-200 | Cutting at byte 20 ends the thread exactly if that is inside a character |
| Clipboard.SurvivesIff | crates/cdus-agent/src/lib.rs:160-294 | The daemon survives a series exactly if every update that is newest when it arrives can be cut; then it ends as last-writer-wins says and has written exactly those |
| Clipboard.EndsAt | crates/cdus-agent/src/lib.rs:182-200 | Else it ends at the first that cannot be cut, which it persists and does not write, having written those before |
| Clipboard.SurvivesEveryOrderIff | crates/cdus-agent/src/lib.rs:160-294 | It survives the same updates in every order exactly if each that is newer than what it has can be cut |
| Clipboard.TrapEndsDaemon | crates/cdus-agent/src/lib.rs:193-200 | One such text from a peer: it is persisted, never written, and nothing after it is taken |
| Clipboard.TrapIsNotBroadcast | crates/cdus-agent/src/lib.rs:138-153 | The same text copied on the device is persisted and not broadcast |
| Clipboard.Mobile.SetClipboard | crates/cdus-ffi/src/lib.rs:439-477 | An update is taken exactly if it is not blank and nothing is persisted or it is strictly newer |
| Clipboard.Mobile.Receive | crates/cdus-ffi/src/lib.rs:439-477 | A series of updates takes the accepted ones, in order, and ends as last-writer-wins says |
| Clipboard.SameDecisionsIff | crates/cdus-ffi/src/lib.rs:451-460 | From the same persisted state the desktop writes exactly what the mobile binding takes if and only if something is persisted or the first update is not stamped 0, and every update taken can be cut |
| Clipboard.MergeAllResult | crates/cdus-ffi/src/lib.rs:451-466 | By the merging rule the result is the old content if nothing is newer, else an update with the newest stamp |
| Clipboard.ConvergesIff | crates/cdus-ffi/src/lib.rs:451-466 | By the merging rule every order and repetition of the same updates ends the same exactly when no two contents share the newest stamp |
| Clipboard.DaemonsConvergeIff | crates/cdus-agent/src/lib.rs:160-294 | Daemons persist the same for every order and repetition exactly when no two contents share the newest stamp and no older new text is one that cannot be cut |
| Clipboard.DistinctStampsConverge | crates/cdus-agent/src/lib.rs:160-294 | Daemons given updates with different stamps, of which only the newest may be one that cannot be cut, persist the same in any order with any repeats |
| Alerts.Center.Mirrored | crates/cdus-agent/src/lib.rs:724-778 | A mirrored notification becomes active, alerts by the rule, and records the time of an alert |
| Alerts.Center.Dismissed | crates/cdus-agent/src/lib.rs:715-723 | A dismissal, by this device or a peer, forgets the notification and its alert time |
| Alerts.AlertTimesAreActive | crates/cdus-agent/src/lib.rs:715-793 | Keys with an alert time are always active keys |
| Alerts.AlertsSpaced | crates/cdus-agent/src/lib.rs:733-748 | Two alerts for a key with no dismissal between them are at least five seconds apart |
| Alerts.AlertsWhen | crates/cdus-agent/src/lib.rs:725-732 | Ongoing payloads never alert; other alert-once payloads alert exactly when their key is not active |
| Alerts.AlertsIff | crates/cdus-agent/src/lib.rs:724-748 | Exactly when a notification alerts, from the history: it is not ongoing, if alert-once its key is not showing, and every alert of its key with no dismissal since is 5000 ms old |
| Alerts.ActiveIff | crates/cdus-agent/src/lib.rs:715-767 | A key is active exactly if mirrored and not dismissed since |
| Alerts.ActiveIsLatest | crates/cdus-agent/src/lib.rs:762-767 | What is active for it is the last payload mirrored |
| Alerts.DismissalResets | crates/cdus-agent/src/lib.rs:715-723 | After a dismissal the next ordinary notification of the key alerts at once |
| Framing.FramingRoundTrip | crates/cdus-agent/src/libp2p_manager.rs:24-49 | Decoding the concatenated frames of any messages returns exactly those that could be serialized |
| Framing.TruncationSafe | crates/cdus-agent/src/file_transfer.rs:353-384 | Any truncation of a written stream decodes to a prefix of the messages |
| Framing.FrameRoundTripIff | crates/cdus-agent/src/libp2p_manager.rs:37-49 | A frame reads back as its body exactly if the body is shorter than 2^32 bytes |
| Framing.FrameLayout | crates/cdus-agent/src/libp2p_manager.rs:43-46 | A frame is four bytes that give the body's length, the most significant first, then the body |
| Framing.StopsAtGarbage | crates/cdus-agent/src/file_transfer.rs:353-384 | A body that does not decode ends the reading: the messages before it are delivered and nothing behind it |
| Framing.WriteTask | crates/cdus-agent/src/file_transfer.rs:326-350 | The write task emits one frame for each message that serializes, in order |
| Framing.ReadTask | crates/cdus-agent/src/file_transfer.rs:353-384 | The read task delivers the messages of the complete frames, up to the first body that does not decode |

## Left out

- Resume.CrashSafe: covers process death followed by a start, not power loss; a flushed write is taken to survive, and a crash inside a write leaves a prefix of it.
- Resume.NextSessionCovers: is about the source as it was; a source file edited between sessions is caught only by the whole-file hash.
- Outcome.SessionOutcome: assumes no fault inside that one session, though the destination may move; cuts and faults in all earlier sessions are covered.
- Patience.ReceiveBound: counts reads; the five seconds of each are not modelled.
- Cancel.ReceiverCancelPausesIff: as long as the connection lasts until the sender has returned; if it breaks first the sender fails (`Exits.SenderExit`).
- Exits.SenderExit: a failing database write after the answer was read counts as a failing read.
- Intake.OnlyGenuine: from the opening of the part file on; what the file held before is `Resume` and `Deletion`.
- Manager.FileTransferManager.HandleOutgoingTransfer: takes the inner function's outcome as an argument; over the real exits the status is `Records.SenderSettles`. With a failing store the status is not fixed up.
- Destination.SafeDestination: the directory does not change while the loop looks for a name; the counter is unbounded instead of 32 bits.
- Qr.ParseQrPayload: `Qr.ParseUrl` splits scheme, host, path, query and fragment, without user names, ports and the parser's clean-up of odd characters; values that are not UTF-8 are not repaired.
- Pairing.PairingAgreement: each user decides once and no frame is lost; with losses it is false (`Pairing.LossCanSplit`).
- Two receiving handlers for one transfer at once (a sender restarting while the old receiver still waits), and two transfers whose names share one part file.
- Deletion of records by the user (`delete_transfer`, `clear_finished_transfers`), after which nothing is known of a transfer, and `cleanup_stale_transfers`, called at start (crates/cdus-agent/src/main.rs:137) to remove the part files of paused or pending transfers older than seven days, of which the store's opening just before has left none.
- Requests with chunk size 0 or other fields than the sender's record; the theorems about runs take both sides' plans to be the same.
- Benchmark transfers, crash triggers and the simulated crash call.
- Relay pairing over TURN and its signalling, which locks `active_pairing` again while holding it.
- Revocation, local lockout beyond its guard on the clipboard, and the toggle of local-only items, which moves the persisted timestamp without the clock.
- SQLite, sockets, libp2p, WebSocket, Noise, MessagePack and JSON bodies: maps, FIFO channels, bytes and inverse pairs.
- Merging of notes (done by a library) and of settings, HTML metadata, the desktop user interface, the relay server, service scripts and the remaining mobile bindings.
