# Authority journal, session keeper and terminal client: a Dafny model

The repository runs terminal sessions that survive their viewers. This project models its three hardest
parts and proves what they promise.

1. **Authority journal** (`crates/authority/src/lib.rs`, used by `crates/node/src/bridge.rs`). A file that
   only grows, each line signed and naming the hash of the one before it, decides how often a grant may be
   used. Any number of handles share the file under a lock; the newest line is also named by an anchor
   beside the file.
2. **Session keeper** (`crates/core/src/lib.rs`, `crates/session/src/main.rs`). One process per session
   owns the PTY: a bounded output history with resize marks, input control with fencing generations, and
   the threads around them.
3. **Client** (`packages/terminal/src/input-controller.js`, `packages/terminal/src/view.js`). A view's
   ordered send queue and its follower loop.

## How it is built

Each component appears three times, every time on the same definitions:

- as **values and functions** (`Ledger`, `Framing`, `Authority`, `HistorySpec`, `ControllerSpec`, `Handoff`,
  `Utf8`, `SendQueue`, `Leases`), where the meaning is defined and its laws are proved;
- as **classes changed in place** (`Journal`, `Bridge`, `History`, `Controller`, `InputController`,
  `TerminalView`), whose methods follow the source's loops and early returns and are proved to do what
  the functions say;
- as **interleaved steps** (`JournalRuns`, `JournalSteps`, `BridgeRuns`, `JournalSafety`, `JournalProgress`,
  `JournalAnswers`, `JournalCuts`, `JournalLimits`, `KeeperOutput`, `KeeperClosing`, `KeeperInput`,
  `KeeperAnswers`, `KeeperLocks`, `Follower`, `EndToEnd`, `LeaseOrder`, `LeaseLimits`, over the relations of
  `Transitions`), where threads, processes, crashes, lost messages and an unreliable anchor take turns at
  will, and the safety results hold in every reachable state.

Digests and signatures are ideal: a digest is the value it was taken over, a signature names its key and
its message. That is what SHA-256 and Ed25519 are relied on for; nothing is assumed about them beyond it.
The body encoding of a record is a parameter. Nothing is asked of it in general, only of the records that are
in the file or are being written: that their bytes fit the four-byte length and decode to them
(`Framing.Carried`). For any records whatever there is such an encoding (`Framing.EveryHistoryHasACodec`),
and the run of `JournalLimits.ATornHandleSpendsOnAnEmptiedFile` comes with its own. The outside world (file
system, anchor program, PTY, network, clock) answers through parameters and nondeterministic steps.

## Where the code and its words differ

The code is modelled as it is. These are the places where it does not do what its comments or documents
say. Each names the lemma that says exactly when, and the one that shows it happen.

- After 256 live resizes the bound on marks drops marks that retained bytes still need, and a frame from
  before the first kept mark carries that mark's grid (`crates/core/src/lib.rs:82-84`, `107-113`), although
  `crates/protocol/src/lib.rs:117-119` promises the grid the bytes were produced on. When:
  `HistorySpec.FrameTellsTheTruth`. A dragged window read at a width it did not have:
  `HistorySpec.LongDragsMislabelOldBytes`.
- A handle whose parse stops at a torn record has already moved its tip and its index, not its read position
  (`crates/authority/src/lib.rs:441-468`). If the file is then cut back to that position, the handle has
  nothing to read, its tip satisfies the anchor, and it grants a spend on a file that lacks reserve lines
  whose permits were released. When: `JournalCuts.TornHandlesAcceptOneCut`. A run that ends so:
  `JournalLimits.ATornHandleSpendsOnAnEmptiedFile`. Budgets hold all the same, because the handle still counts
  those permits (`JournalCuts.SpendsOnCutFilesStayWithinBudget`), and the next reader refuses the file
  (`JournalCuts.TheNextReaderRefuses`).
- `CommandAnchor::tip` returns on `null` before its floor check (`crates/authority/src/lib.rs:272-274`):
  `Authority.AcceptedAnswersNeverGoBack` covers answers that name a tip, and says what `null` does.
- A subscriber woken by a resize sends nothing until bytes or a heartbeat
  (`crates/session/src/main.rs:474-500`), against `crates/protocol/src/lib.rs:64-67`. When a frame goes out:
  `KeeperOutput.FramesAreDue`. Resizes that wake for nothing: `KeeperOutput.ResizesWakeInVain`, from a new
  session `KeeperOutput.AResizeSendsNothing`. The wake-up itself is never lost (`KeeperOutput.NoLostWakeup`).
- After its pause, `deliver` sends again without looking at the epoch
  (`packages/terminal/src/input-controller.js:169-173`). When: `SendQueue.RequestsBelongToTheirEpoch`,
  `LeaseLimits.SentFromTheQueue`. The old bytes reach the PTY under the lease in force, even a later one:
  `LeaseLimits.OldBytesReachThePty`, `LeaseLimits.APauseCrossesLeases`.
- `setPaused` resets the send queue under a live lease (`packages/terminal/src/view.js:50`). If the answer to
  the request that was out is then not heard, its number is used again, and if it was written the keeper
  answers "out-of-order". When: `EndToEnd.ConflictsExactlyWhenUnheard`, over all runs. From every state in
  which a reset finds an undecided request the keeper can still accept:
  `LeaseLimits.AnyResetUnderTheLeaseCanConflict`, from a new session
  `LeaseLimits.AResetUnderTheLeaseCanConflict`.
- The keeper's "this input was not accepted" is not a message the client knows as "busy"
  (`crates/session/src/main.rs:754-756`, `packages/terminal/src/index.js:10`), so it is taken for an unknown
  outcome and not retried, against `docs/CONTINUITY.md:268`. When: `EndToEnd.RefusalsByTheirWords`. What
  follows: `EndToEnd.ARefusalIsTakenForUnknown`.
- An accepted handoff changes the holder without telling presence (`crates/session/src/main.rs:675-681`):
  `held` is right, the name shown is the former holder's. When: `KeeperInput.PresenceMatchesControl`. A run:
  `KeeperInput.AcceptedControlKeepsTheOldName`.
- A takeover does not silence a write already in progress; what holds is the order of writes
  (`KeeperInput.PtyWritesAreFenced`).
- `docs/authority.md` describes a SQLite journal that the code no longer has.

## Model

| member | source | states |
|---|---|---|
| Ledger.AnySplitReplaysTheSame | crates/authority/src/lib.rs:429-490 | However the reads of a file are split, the index ends where one read from scratch ends, and every prefix of an accepted file is accepted |
| Ledger.AcceptedShape | crates/authority/src/lib.rs:452-465 | An accepted list has no gap: line i carries sequence i, the hash of the line before it and this node's signature, and the tip names the last line |
| Ledger.SameEndSameList | crates/authority/src/lib.rs:365-372 | The hash chain determines the past: two accepted lists ending in the same line are the same list |
| Ledger.SignedLinesOnlyFormPrefixes | crates/authority/src/lib.rs:452-463 | Lines signed by the node, reordered, repeated or left out in any way, are accepted only as a prefix of the true history |
| Ledger.CountersAreExact | crates/authority/src/lib.rs:491-522 | The counter kept for a grant id is the number of its reserve lines, all under the terms first reserved |
| Ledger.BudgetIsNeverExceeded | crates/authority/src/lib.rs:495-508 | In any accepted file a grant id is never reserved more often than the budget in its signed terms |
| Ledger.OperationsAreIndexed | crates/authority/src/lib.rs:491-522 | The index knows a (grant, nonce) exactly when it was reserved, with the request it was reserved for, and then knows its grant |
| Ledger.OneReservationPerOperation | crates/authority/src/lib.rs:495-508 | No (grant, nonce) is reserved twice in an accepted file |
| Ledger.PendingIsReservedLessConcluded | crates/authority/src/lib.rs:629-635 | Conservation: operations pending plus outcome lines equal reserve lines |
| Ledger.OperationsAreAsLastSaid | crates/authority/src/lib.rs:491-522 | The index has each operation in the state its last line put it in |
| Framing.BigEndianRoundTrip | crates/authority/src/lib.rs:441-448 | The length prefix read back is the length written |
| Framing.ScanReplaysFrames | crates/authority/src/lib.rs:441-468 | Reading what append wrote replays exactly the records written, each of a length that fits its field, then goes on with what follows them |
| Framing.EveryHistoryHasACodec | crates/authority/src/lib.rs:523-538 | What is asked of an encoding can be met for any records, at most 2^32 of them, and their file then reads back as their replay |
| Framing.TornTailIsRefused | crates/authority/src/lib.rs:442-450 | A file ending inside a record is refused as tampered, whatever came before, with the index left alone |
| Framing.CutIsAcceptedOnlyOnBoundaries | crates/authority/src/lib.rs:441-468 | A file of a valid chain cut at byte n is accepted exactly when n falls between records, and yields exactly that prefix |
| Framing.AcceptedFileIsFrames | crates/authority/src/lib.rs:441-468 | Any accepted bytes are a concatenation of length-prefixed bodies whose records replay to the same index |
| Framing.FramesAreAcceptedFile | crates/authority/src/lib.rs:441-468 | Every such concatenation of a valid chain is accepted, with that index |
| Framing.AcceptsExactly | crates/authority/src/lib.rs:441-468 | The parse loop accepts exactly the concatenations of frames of valid chains, and ends with exactly their index |
| Authority.VerifiedBindsWhatWasSigned | crates/authority/src/lib.rs:94-144 | The digests a verified operation carries determine the request, the body bytes and (with the terms) the grant that were signed |
| Authority.SignaturesCannotBeReused | crates/authority/src/lib.rs:94-144 | Two verified presentations with the same signatures are the same presentation of the same bytes |
| Authority.VerificationEndsWithItsScope | crates/authority/src/lib.rs:94-144 | A presentation that verified once verifies again exactly for the same owner, audience and policy epoch, inside its time window and unrevoked |
| Authority.OnlyWhatWasMadeVerifies | crates/authority/src/lib.rs:94-144 | A presentation verifies exactly if it was made with the owner's and the subject's keys for these bytes and the grant can be used now; it then stands for that operation of that grant and nothing else |
| Authority.FloorNeverMovesBack | crates/authority/src/lib.rs:267-317 | Whatever the anchor program answers, the newest tip seen never moves backwards or sideways |
| Authority.AcceptedAnswersNeverGoBack | crates/authority/src/lib.rs:268-296 | A tip once accepted bounds every later answer that names a tip, in both directions of the check; null is outside the rule |
| Authority.PreChecksImplyApply | crates/authority/src/lib.rs:573-628 | What the checks of reserve and finish let through, apply accepts |
| Journal.MemoryAnchor.Advance | crates/authority/src/lib.rs:166-186 | The in-process anchor takes a tip exactly when it is ahead of or equal to the one it has |
| Journal.CommandAnchor.Ask | crates/authority/src/lib.rs:268-296 | Asking for the tip: unavailable, none, refused below or beside the floor, or adopted as the new floor |
| Journal.CommandAnchor.Advance | crates/authority/src/lib.rs:297-317 | Moving the tip: refused here without running the program, or run, and remembered only if it exits 0 |
| Journal.Handle.Open | crates/authority/src/lib.rs:398-428 | Opening reads and checks the whole file under the shared lock; which files open, with what answer of the anchor, is `JournalAnswers.SoundFilesOpen` |
| Journal.Handle.CatchUpInPlace | crates/authority/src/lib.rs:429-490 | The in-place parse loop and anchor check do what the scan over the unread bytes says, on every path including refusals part way; what that must answer is `JournalAnswers.CatchingUpAnswers` |
| Journal.Handle.ApplyInPlace | crates/authority/src/lib.rs:491-522 | Counting one line in place, including the entry a refused reservation leaves behind |
| Journal.Handle.AppendInPlace | crates/authority/src/lib.rs:523-550 | Sign, write, fsync, count, anchor: the file and the memory after each way of failing |
| Journal.Handle.Authorize | crates/authority/src/lib.rs:551-599 | A permit comes out exactly when verification, lock, catching up, checks, write, fsync, anchor and unlock all worked; otherwise which error and what state is left |
| Journal.Handle.Finish | crates/authority/src/lib.rs:600-628 | Recording an outcome for a permit under the lock, with every refusal and the state it leaves; when it must succeed is `JournalAnswers.ConclusionsAreRecorded` |
| Journal.Handle.PendingCount | crates/authority/src/lib.rs:629-635 | The number of operations reserved with no outcome |
| JournalSteps.JobsAreOperations | crates/authority/src/lib.rs:573-628 | Reserve and finish are one shape: catch up, check, append |
| JournalSteps.OperationsAreRuns | crates/authority/src/lib.rs:523-628 | A whole reserve or finish, whatever fails in it, is a run of the interleaved steps: same file, same memory, a permit in the same cases. The record to be written must fit its length field |
| BridgeRuns.ControlCallsAreRuns | crates/node/src/bridge.rs:139-163 | A whole control call of the bridge, whatever fails in it, is a run of the steps: exactly when a permit comes out there is one upstream call, under that permit, for its resource and with its bytes, and the permit is given up |
| JournalRuns.CatchUpKnows | crates/authority/src/lib.rs:429-490 | A handle that catches up holds exactly the replay of a prefix of the file, and of all of it when it succeeds |
| JournalRuns.NewRecordExtends | crates/authority/src/lib.rs:523-537 | A line written after the checks extends the accepted chain |
| JournalRuns.StepKeepsInvariant | crates/authority/src/lib.rs:429-628 | Every step (open, begin, write, fsync, anchor, settle, return, process death, power loss, upstream call) keeps: file accepted, each handle an exact replay of what it read, one durable reserve line per released permit |
| JournalRuns.RunsKeepInvariant | crates/authority/src/lib.rs:429-628 | This holds in every reachable state, whatever the anchor program answers |
| JournalSafety.PermitsStayWithinBudget | crates/authority/src/lib.rs:491-599 | Over every interleaving with crashes and a lying anchor, permits released for a grant id never exceed the uses of its first-reserved terms, which are the terms of all its permits |
| JournalSafety.OperationsArePermittedOnce | crates/authority/src/lib.rs:573-599 | No (grant, nonce) ever gets two permits |
| JournalSafety.UpstreamCallsAreBacked | crates/node/src/bridge.rs:139-163 | Across restarts: at most one upstream control call per operation and max_uses per grant, each after its durable reserve line and for exactly the signed resource, action and bytes, inside the grant's window, audience and epoch |
| JournalSafety.TornFilesStopEverything | crates/authority/src/lib.rs:442-450 | Once a torn record is in the file no handle, old or new, gets past catching up, and none is about to write |
| JournalSafety.HonestRunsStayAnchored | crates/authority/src/lib.rs:523-548 | Beside an honest anchor, the anchored tip names a durable line with its hash, and every released permit's reserve line is at or below it |
| JournalSafety.HonestRunsNeverAnswerTampered | crates/authority/src/lib.rs:429-548 | With whole-record crashes and an honest anchor, neither catching up nor settling a written line ever answers "tampered" |
| JournalProgress.SpendableMeansUsesLeft | crates/authority/src/lib.rs:573-580 | The check in memory before a reservation asks exactly whether the file has a use left under these terms and has not seen the nonce |
| JournalProgress.UsesLeftAreGranted | crates/authority/src/lib.rs:551-599 | Beside an honest anchor, when nothing goes wrong, a verified operation is granted exactly when a use is left; otherwise it is "spent" and the file untouched |
| JournalAnswers.OnlySpendsNeedTheAnchor | crates/authority/src/lib.rs:469-475 | With the anchor silent no spend goes through and the file stays as it was; opening and recording outcomes never fail for want of it |
| JournalAnswers.OtherLinesAreNotSpentOn | crates/authority/src/lib.rs:476-489 | A file whose last line is below the anchored one, or has its number and another hash, gets neither reservation nor outcome, and is left as it was |
| JournalAnswers.CatchingUpAnswers | crates/authority/src/lib.rs:429-490 | Any handle on any untorn file, for every answer of the anchor program: which outcome catching up has, and that it ends with the index of the whole file |
| JournalAnswers.SoundFilesOpen | crates/authority/src/lib.rs:398-428 | A new handle opens an untorn file exactly unless the anchor names a line that is not in it; a silent anchor does not keep it from opening |
| JournalAnswers.SpentExactlyWhenUsedUp | crates/authority/src/lib.rs:573-580 | Beside an honest anchor, a reservation is answered "spent" exactly when no use is left, with the file untouched |
| JournalAnswers.ConclusionsAreRecorded | crates/authority/src/lib.rs:600-628 | The outcome of a pending permit is recorded, the operation then being in the state it says, though the anchor be silent; that of any other is refused |
| JournalCuts.AnchorCheckCoversPermits | crates/authority/src/lib.rs:469-489 | A prefix of the true history that passes the anchor check holds the reserve line of every released permit |
| JournalCuts.CutFilesKeepEveryPermit | crates/authority/src/lib.rs:429-490 | After a cut of any number of bytes, torn file or not, a spend by a new handle, or an old one that has read all it counts, is refused unless the cut left whole records, all released permits' reserve lines among them |
| JournalCuts.TornHandlesAcceptOneCut | crates/authority/src/lib.rs:432-468 | Any other handle met a torn record; it accepts a cut file if and only if the cut equals its read position, and then goes by an index of the whole true history |
| JournalCuts.SubstitutedFilesKeepEveryPermit | crates/authority/src/lib.rs:429-489 | The same for any replacement of the bytes past a handle's read position, any handle, that carries no foreign line signed by the node: what is accepted is a beginning of the true history holding every released permit's line. Earlier bytes are not read again |
| JournalCuts.SpendsOnCutFilesStayWithinBudget | crates/authority/src/lib.rs:573-599 | A spend that goes through on a cut file, by whichever handle, is for an operation without a permit and leaves its grant's released permits within the budget |
| JournalCuts.SpendsOnChangedFilesStayWithinBudget | crates/authority/src/lib.rs:573-599 | The same on a file replaced past the handle's read position |
| JournalCuts.TheNextReaderRefuses | crates/authority/src/lib.rs:452-456 | A line written by such a torn handle on its cut leaves a gap, and whoever opens the file refuses it |
| JournalLimits.TornWritesMakeTornHandles | crates/authority/src/lib.rs:441-468 | From every reached state with one handle about to write and another with lines unread: the write tears, the other tries to spend, and from then on counts lines past its read position |
| JournalLimits.TornHandlesSpendOnTheirCut | crates/authority/src/lib.rs:429-490 | Every such handle, the file cut back to its read position and nothing else wrong, is granted any use left by its index |
| JournalLimits.ATornHandleSpendsOnAnEmptiedFile | crates/authority/src/lib.rs:429-599 | A run, with an encoding that carries its records: a permit is released, a write tears, another handle meets it, the file is emptied, and that handle spends on the empty file |
| Bridge.PermitsAreWrittenAndAnchored | crates/authority/src/lib.rs:523-548 | A reservation that succeeded is written as one frame for this very operation, fsynced and anchored |
| Bridge.Bridge.Call | crates/node/src/bridge.rs:105-166 | Which requests reach the upstream, with what, how often, in what state of file and anchor, and what is left behind; otherwise the answer: no grant, not granted exactly if it does not verify, already used if the journal says spent, else unavailable; observing leaves file, handle and anchor unchanged |
| HistorySpec.PushKeepsTheNewest | crates/core/src/lib.rs:86-101 | Pushing into the ring keeps exactly the newest bytes that fit |
| HistorySpec.AppendRefines | crates/core/src/lib.rs:86-101 | After an append the ring is the last min(capacity, next) bytes of the whole stream and the marks still tell the grid of every byte after them |
| HistorySpec.ResizeRefines | crates/core/src/lib.rs:54-69 | The same after a resize, whether or not a mark at the head is replaced |
| HistorySpec.PruneKeeps | crates/core/src/lib.rs:77-85 | Pruning keeps 1 to 256 marks, strictly increasing in offset and epoch, and their meaning |
| HistorySpec.FrameTellsTheTruth | crates/core/src/lib.rs:102-143 | A frame is a true piece of the stream, flagged exactly when bytes were skipped, empty exactly at the head; its grid is its bytes' grid if and only if it starts at or past the oldest kept mark |
| HistorySpec.MarksCoverTheRing | crates/core/src/lib.rs:77-85 | Below the bound on marks no retained byte is ever mislabelled |
| HistorySpec.FramesStopForAReason | crates/core/src/lib.rs:102-143 | A frame is as long as it can be: it stops only at its limit, at the newest byte, or where the next byte was produced on another grid |
| HistorySpec.LongDragsMislabelOldBytes | crates/core/src/lib.rs:82-84 | From 256 live resizes on, a reader from the start gets one width for bytes of which the first and every other one were produced on another |
| HistorySpec.DrainDeliversEverything | crates/core/src/lib.rs:102-143 | Reading on delivers all that is retained, once and in order, in at most head minus cursor reads, a gap only in the first |
| History.History.Append | crates/core/src/lib.rs:86-101 | The in-place byte loop and prune keep the history a true window on its stream |
| History.History.Resize | crates/core/src/lib.rs:54-69 | The in-place mark update does too, and answers the grid now in force |
| History.History.PruneInPlace | crates/core/src/lib.rs:77-85 | The two prune loops drop exactly the marks no retained byte needs, then the bound's excess |
| History.History.ReadFrom | crates/core/src/lib.rs:124-143 | A read refuses exactly a cursor ahead of the output; otherwise it is a true piece of the stream from where the cursor can still be served, flagged if bytes were skipped, empty only at the head |
| History.History.ReadFrameFrom | crates/core/src/lib.rs:102-123 | The search for the mark and the bounded read yield a true frame of the stream, on the right grid where the marks still reach |
| KeeperOutput.StepKeepsInvariant | crates/session/src/main.rs:324-360 | Every step of reader, child watcher, resize and subscriber keeps the locks, the equal traces, the counted signals and the subscriber's place |
| KeeperOutput.RunsKeepInvariant | crates/session/src/main.rs:324-360 | This holds in every reachable state |
| KeeperOutput.NoLostWakeup | crates/session/src/main.rs:464-500 | A parked subscriber with no notification due is at the head of a session that has not ended; any other can go on |
| KeeperOutput.FramesFollowTheStream | crates/session/src/main.rs:451-502 | A subscriber's frames are contiguous or flagged gap and true; the exited frame is empty, sent at most once, last, after the final head was delivered |
| KeeperClosing.SubscriptionsEndAsSaid | crates/session/src/main.rs:474-491 | A subscription that ended without refusal or failed write ended with the exited frame, and only such a one did |
| KeeperClosing.OnlyCursorsAheadAreRefused | crates/session/src/main.rs:466-473 | A subscriber is refused exactly if its cursor is ahead of the output; otherwise it reads on from the first byte that can still be served |
| KeeperClosing.EndedStreamsAreClosed | crates/session/src/main.rs:464-502 | From every reached state of an ended session, a subscriber still reading can go on, by its own steps and those of a resize under way, to the rest of the output and then the empty exited frame |
| KeeperOutput.FramesAreDue | crates/session/src/main.rs:474-500 | A frame goes out only with bytes, as the closing one, or as the heartbeat of a subscriber nothing has woken |
| KeeperOutput.ResizesWakeInVain | crates/session/src/main.rs:493-500 | From every point of every run with a subscriber parked at the head and nothing else going on, a resize wakes it and it parks again with nothing sent |
| KeeperOutput.AResizeSendsNothing | crates/session/src/main.rs:451-502 | A run from a new session in which that happens |
| KeeperOutput.ClosedStreamsAreFinal | crates/session/src/main.rs:346-348 | Nothing is appended after the end of output is stored, so "ended" means delivered in full |
| KeeperOutput.OutputIsKept | crates/session/src/main.rs:324-344 | Over all runs, the bytes the PTY gave are the stream followed by what the reader has in hand: none lost, none twice |
| KeeperOutput.ScreenAndHistoryAgree | crates/session/src/main.rs:333-338 | With the screen lock free, screen and history have been told the same feeds and resizes, and PTY size, screen size and history grid agree |
| Follower.StepKeepsInvariant | packages/terminal/src/view.js:32-45 | Output, resizes, keeper restarts, lost and delayed replies keep the replica right |
| Follower.WatchersReplicateTheStream | packages/terminal/src/view.js:32-45 | What a watching view parsed since its last reset is exactly the first offset (grid, byte) pairs its keeper produced |
| Follower.OnlyTheBoundMakesRepliesInexact | crates/core/src/lib.rs:77-85 | The proviso of the line above fails only when the keeper holds 256 marks |
| Follower.BlockedExactlyAfterAGap | packages/terminal/src/view.js:35-39 | Over all runs a view is blocked exactly if it met a gap in what it follows |
| Follower.BlockedViewsStay | packages/terminal/src/view.js:32-39 | A blocked view asks for nothing and shows what it showed before the gap |
| Follower.PollingCatchesUp | packages/terminal/src/view.js:32-45 | From every reached state in which a view follows the running keeper and missed nothing, polling alone brings it to the end of the output |
| ControllerSpec.EvictKeepsASuffix | crates/core/src/lib.rs:258-264 | Eviction keeps the newest inputs within both bounds, drops no more than needed, and never looks into an empty window |
| ControllerSpec.OpsKeepTheWindow | crates/core/src/lib.rs:173-271 | Every operation keeps the dedup window contiguous, ending at the last sequence, exactly counted, with at least the last 16 inputs. Who may do what, and what is answered, is in the rows of `Handoff` |
| ControllerSpec.RecentInputsAreRecognised | crates/core/src/lib.rs:241-247 | A repeated number is answered "duplicate" exactly for the bytes it had, "conflict" otherwise, and never changes anything |
| Controller.Controller.Accept | crates/core/src/lib.rs:218-230 | A ticket transfers control once, before its deadline, or not at all |
| Controller.Controller.PrepareInput | crates/core/src/lib.rs:231-268 | Deciding about one input, eviction loop included, keeps the dedup window |
| Handoff.OffersAreMade | crates/core/src/lib.rs:203-217 | A standing offer was made by the lease still in force, and nobody gave or took control or touched the offer since |
| Handoff.HandoffsAreGenuine | crates/core/src/lib.rs:203-230 | An accepted handoff was offered with this ticket less than 120 seconds before by the very lease it ends, not replaced, withdrawn or overtaken, and it fences the sender |
| Handoff.TicketsWorkOnce | crates/core/src/lib.rs:218-230 | Two acceptances of one ticket need two offers of it |
| Handoff.OffersAreHonoured | crates/core/src/lib.rs:203-230 | An offer is accepted for exactly its ticket and exactly before its deadline |
| Handoff.TicketsAreAnswered | crates/core/src/lib.rs:218-230 | After any operations: a ticket gets control if it is the one on offer and in time, "expired" once that offer has run out, which is then gone, and otherwise "unavailable" with nothing changed |
| Handoff.OnlyTheLeaseInForcePasses | crates/core/src/lib.rs:189-195 | After any operations, a generation passes the check exactly if its lease was granted and neither followed by another grant nor released |
| Handoff.GenerationsCountGrants | crates/core/src/lib.rs:173-188 | After any operations the generation is the number of leases granted, and each grant has the next number |
| Handoff.ControlIsGivenOnlyWhenFree | crates/core/src/lib.rs:173-179 | After any operations: control is given exactly if no lease is in force or it is taken over outright; a refusal says which and changes nothing |
| Handoff.OnlyTheLeaseInForceActs | crates/core/src/lib.rs:189-217 | After any operations: whatever names a lease is "stale" exactly if that lease is not in force, and then changes nothing; releasing, offering and withdrawing under the lease in force always work |
| Handoff.InputsAreTakenInTurn | crates/core/src/lib.rs:231-271 | Under the lease in force an input is taken exactly if it is the next in number and every one before was reported written; with one unreported everything is answered "outcome unknown" |
| KeeperInput.StepKeepsInvariant | crates/session/src/main.rs:641-779 | Every step of any handler and any control operation keeps the locks, the order of the PTY log, and that everything remembered was written |
| KeeperInput.RunsKeepInvariant | crates/session/src/main.rs:641-779 | This holds in every reachable state |
| KeeperInput.PtyWritesAreFenced | crates/session/src/main.rs:741-779 | Under any interleaving, PTY writes are strictly increasing in (generation, sequence), run 1, 2, 3, … in each generation, and nothing follows a cut write of its generation |
| KeeperInput.SequencesAreContiguous | crates/core/src/lib.rs:248-257 | Each generation's writes start at 1 and leave nothing out |
| KeeperInput.LateWrittenClearsNothing | crates/session/src/main.rs:770-771 | A late written() of a former lease finds no uncertainty of the new one to clear |
| KeeperInput.DuplicatesWereWritten | crates/core/src/lib.rs:241-245 | "Duplicate" is answered only for bytes fully written under this lease |
| KeeperAnswers.AnswersSayWhatWasWritten | crates/session/src/main.rs:741-779 | Over all runs: "ok" and "duplicate" mean these bytes are in the PTY whole under this lease and number, "outcome unknown" that a write of them was cut; a handler wrote exactly if it says "ok" or "outcome unknown"; but for "exited" and "not accepted" an answer is the controller's decision under the input lock |
| KeeperInput.PresenceMatchesControl | crates/session/src/main.rs:641-690 | With the controls lock free, presence says held exactly when control is, and shows the name of whoever took control outright last: the holder's exactly if the lease in force was not accepted by handoff, or the names coincide |
| KeeperInput.AcceptedControlKeepsTheOldName | crates/session/src/main.rs:675-681 | A run in which control passes by handoff and presence goes on showing the former holder |
| KeeperLocks.EveryPathIsOrdered | crates/session/src/main.rs:558-779 | Every path of every thread takes its locks in the one order input, controls, then presence or screen, history, signal, and ends holding none |
| KeeperLocks.NoCircularWait | crates/session/src/main.rs:558-779 | No reachable state has a circular wait |
| KeeperLocks.StalledInputBlocksNobodyElse | crates/session/src/main.rs:222-229 | With handlers stalled in PTY writes, every other thread can move or waits for one that can |
| KeeperLocks.StalledInputDelaysNobodyElse | crates/session/src/main.rs:222-229 | In every schedule from every reached state, arrivals included, the turns of threads outside PTY writes are bounded by 17 for each thread there is or arrives, and while one such thread is left one of them has a turn to take: every schedule without arrivals ends with everybody through but the one handler in its PTY write |
| Utf8.ChunksReassemble | packages/terminal/src/input-controller.js:25-37 | The pieces are the whole input in order, none empty, none over the maximum, malformed runs included |
| Utf8.ChunksAreWellFormed | packages/terminal/src/input-controller.js:25-37 | Well-formed UTF-8 (section 3 of RFC 3629) is cut only between characters: each piece is well-formed alone |
| Utf8.SplitAtBoundary | packages/terminal/src/input-controller.js:30-31 | Any byte that is not a continuation byte is a safe place to cut |
| Utf8.PiecesAreLongest | packages/terminal/src/input-controller.js:25-37 | Every piece takes as much as it may of what is left: a shorter one ends where no later character boundary is in reach |
| Utf8.ChunkUtf8 | packages/terminal/src/input-controller.js:25-37 | The cursor loop, its refusal of a size under 4, and all of the above about its result |
| SendQueue.BatchKeepsBytes | packages/terminal/src/input-controller.js:121-135 | Building a request keeps every queued byte in its place; the request is nonempty and within the chunk size |
| SendQueue.WhatPiledUpGoesTogether | packages/terminal/src/input-controller.js:118-135 | At every wait, but for a retry: a request goes out exactly if something is in line, and takes as many whole pieces of it as fit |
| SendQueue.EventsConserveBytes | packages/terminal/src/input-controller.js:84-155 | At every wait: queued is the queue's size, at most one request is out, nothing is stranded; within an epoch accepted is delivered then queued, over all epochs accepted is delivered plus discarded plus in doubt plus queued |
| SendQueue.RunsConserveBytes | packages/terminal/src/input-controller.js:84-155 | This holds after any events, any outcomes, any resets |
| SendQueue.RefusalsAreWholeAndSaid | packages/terminal/src/input-controller.js:95-113 | Text is taken in whole or refused whole with the reason said; nothing is dropped silently |
| SendQueue.SlowAndFastConverge | packages/terminal/src/input-controller.js:166-167 | Three slow answers bring any request size to 256, three fast ones back to 2048 |
| SendQueue.SizesMoveByNotches | packages/terminal/src/input-controller.js:166-167 | Over all runs the request size is 256, 512, 1024 or 2048; a slow answer halves it, a fast one doubles it, nothing else moves it |
| SendQueue.RequestsAreSound | packages/terminal/src/input-controller.js:115-176 | Every request is nonempty, within the chunk size in force, which stays in [256, 2048]; a retry carries the same bytes and none goes out more than seven times; text in, every request is text of its own |
| SendQueue.BusyIsTriedAgain | packages/terminal/src/input-controller.js:157-176 | While its epoch lasts a busy keeper is tried again with the same bytes, six times and no more |
| SendQueue.FailuresAreSaid | packages/terminal/src/input-controller.js:139-176 | A delivery given up in its epoch is said to be uncertain and why; what waited is dropped and counted, and nothing more goes out |
| SendQueue.RefusalsHaveACause | packages/terminal/src/input-controller.js:84-171 | What is shown as refused comes from refused text, a delivery given up or a reset with its reason, and is taken back when text is taken in, a new request goes out or on a plain reset |
| SendQueue.ConditionsAreTrue | packages/terminal/src/input-controller.js:84-155 | Over all runs the condition shown is the true one |
| SendQueue.RequestsBelongToTheirEpoch | packages/terminal/src/input-controller.js:157-176 | A request belongs to the current epoch if and only if it is not the retry of a delivery whose epoch has passed |
| SendQueue.AStaleRetryIsSent | packages/terminal/src/input-controller.js:169-173 | Busy, a reset during the pause, and the old bytes go out again |
| Leases.OldAnswersCountOnlyUnderTheirGeneration | packages/terminal/src/view.js:17 | The late success of a request of an earlier lease moves the new lease's sequence exactly if the two have the same generation |
| Leases.NumbersNeverGoBack | packages/terminal/src/view.js:16-48 | Over all a view goes through: while it has control it has one lease, which nothing replaces and whose numbers only go up; it comes by one only without one, and then begins at 1 with an empty queue |
| InputController.InputController.Submit | packages/terminal/src/input-controller.js:95-113 | What submit takes in, refuses and says, and the request it starts, with the byte accounts kept |
| InputController.InputController.BuildBatch | packages/terminal/src/input-controller.js:121-132 | Both ways a batch is built in place: the front of the queue, never empty, within the size, as many whole pieces as fit, and no byte of the rest moved |
| InputController.InputController.Answered | packages/terminal/src/input-controller.js:115-176 | What the end of a request does: adapt the size, retry, give up, go on, or find the view has moved on |
| InputController.InputController.Retry | packages/terminal/src/input-controller.js:169-173 | After its pause the same bytes go out again |
| InputController.InputController.Reset | packages/terminal/src/input-controller.js:84-90 | A reset discards what waits and starts a new epoch |
| TerminalView.TerminalView.Type | packages/terminal/src/view.js:16-17 | Input needs control and a visible, unpaused view; a request takes the generation and sequence in force |
| TerminalView.TerminalView.Answered | packages/terminal/src/view.js:17-18 | Success moves the sequence on if the lease is still the same; an unknown outcome gives control up |
| TerminalView.TerminalView.TakeControl | packages/terminal/src/view.js:48 | A granted lease starts at sequence 1 with an empty queue; a view in control never asks |
| TerminalView.TerminalView.SetPaused | packages/terminal/src/view.js:50 | Pausing resets the queue and keeps the lease |
| TerminalView.TerminalView.HandleFrame | packages/terminal/src/view.js:35-41 | A frame: start over on another incarnation, block on a gap, else adopt the grid unless controlling, parse, move the cursor |
| EndToEnd.StepKeepsInvariant | packages/terminal/src/input-controller.js:84-176 | Every step of view, wire and keeper, resets and late answers of earlier leases included, keeps: acknowledged batches written whole at their numbers, at most one try for the next number after them |
| EndToEnd.RunsKeepInvariant | packages/terminal/src/input-controller.js:84-176 | This holds in every state a lease can reach, whatever was out when it began |
| EndToEnd.AcknowledgedIsWritten | packages/terminal/src/view.js:16-18 | Over all runs, a lease's PTY bytes are its acknowledged batches in order and at most one, whole or cut, of those sent under the next number |
| EndToEnd.ConflictsExactlyWhenUnheard | crates/core/src/lib.rs:231-257 | Over all runs, a keeper free to take the lease's next input answers it "out-of-order" or "duplicate" if and only if a write of the lease was never heard of; "duplicate" if and only if the bytes are the same; otherwise it writes |
| EndToEnd.RefusalsByTheirWords | packages/terminal/src/index.js:10 | How the client classifies each of the keeper's refusals by its text; none reads as "busy" |
| EndToEnd.ARefusalIsTakenForUnknown | crates/session/src/main.rs:750-757 | "Not accepted" makes the view give control up with that batch in doubt |
| LeaseOrder.StepKeepsOrder | packages/terminal/src/input-controller.js:84-176 | Every step keeps the order of the lease's bytes unless a delivery ends unheard after a reset or a pause outlives its epoch |
| LeaseOrder.RunsKeepOrder | packages/terminal/src/input-controller.js:84-176 | This holds in every state such runs reach |
| LeaseOrder.LeasesReachThePtyInOrder | packages/terminal/src/view.js:16-18 | With requests and replies lost, takeovers, resets at any time and an older request out at the start: a lease's PTY bytes are its acknowledged batches in order plus at most the one outstanding, whole or cut, a beginning of what the view took in less what its resets discarded unsent |
| LeaseOrder.IdleMeansDelivered | packages/terminal/src/input-controller.js:115-155 | In such runs a view that has control and waits for nothing has everything it kept written to the PTY, each byte once |
| LeaseOrder.NeverOutOfOrder | crates/core/src/lib.rs:241-257 | In such runs the keeper never answers "out-of-order or conflicting" (nor "duplicate") to this view |
| LeaseLimits.UnheardWritesConflict | crates/core/src/lib.rs:241-247 | From every reached state with an unheard write, an idle view and a free keeper, the next byte typed, unless it is what was written, is answered "out-of-order" |
| LeaseLimits.AnyResetUnderTheLeaseCanConflict | packages/terminal/src/view.js:50 | From every reached state in which a reset finds the lease's request out, undecided, and the keeper can still accept it, there is a way to that answer |
| LeaseLimits.AResetUnderTheLeaseCanConflict | packages/terminal/src/view.js:50 | A run from a new session that ends so |
| LeaseLimits.SentFromTheQueue | packages/terminal/src/input-controller.js:121-176 | What goes out under a lease is the front of the view's own queue in its own epoch if and only if it is not a pause of a past epoch running out |
| LeaseLimits.OldBytesReachThePty | packages/terminal/src/input-controller.js:169-173 | From every reached state with such a pause and a free keeper, those bytes are written under the lease in force although its view keeps nothing of them |
| LeaseLimits.APauseCrossesLeases | packages/terminal/src/input-controller.js:169-173 | A run in which bytes of an earlier lease are the first written under the next |

## Left out

- Cryptography, certificates, TLS, the key stores, QR pairing, the vault: digests and signatures are ideal values.
- JSON encoding of records and messages: records are typed values under an encoding of which only `Framing.Carried` is asked, of the records written. A record of 4 GiB or more, whose length the code truncates, is framed as the code does (`Framing.Framed`), but no run writes one.
- 64-bit width of the ledger's sequence numbers and counters: unbounded here; the journal would have to hold 2^64 lines. Offsets, generations and input sequences do carry their limit.
- JavaScript's 2^53 limit on exact numbers: generations and sequences are unbounded on the client's side.
- Recovery from torn writes: the code refuses such files by design, and the refusal is what is proved.
- Editing the journal file in the middle of a run and going on: what a changed file does is stated from every reachable state, the runs themselves are without such edits.
- `JournalSafety.UpstreamCallsAreBacked`: one upstream call for a permit is a condition of the call step. `BridgeRuns.ControlCallsAreRuns` proves that the bridge's calls meet it; another caller of the library that called upstream twice before it finished is outside the runs.
- Pages that vanish after a failed fsync: a failed fsync leaves the written line in the file until a power loss takes it.
- The child process behind `CommandAnchor`: running it succeeds, fails, or succeeds without saying so. Its argument and output parsing is one "no usable answer".
- `Journal.Handle.Open`: creating the file and its permissions are not modelled; a handle starts on an existing file.
- `Journal.Handle.CatchUpInPlace`: the file is its bytes; seeking and reading succeed or fail as a whole.
- `KeeperOutput.FramesFollowTheStream`: one subscriber and one resizer stand for all; subscribers only read, and the controls lock admits one resize at a time.
- `KeeperOutput.ScreenAndHistoryAgree`: a resize starts where its lease (`ControllerSpec.Check`) and its size were checked; any size may come, where the code stops at 240 by 100.
- `KeeperLocks.NoCircularWait`: each thread is the path of its lock operations, PTY writes and other work, branch by branch; what the work computes is in the other modules.
- `KeeperLocks.StalledInputDelaysNobodyElse`: polls of the input lock that change nothing are not counted as turns; the code ends them at a deadline.
- Wall-clock time: times are arbitrary parameters, heartbeats and timeouts are steps that may happen at any moment; the retention clock of exited sessions is left out.
- `Presence.hello`, view lists and idle times: for people only, no other part depends on them.
- Process spawning, signals, sockets, HTTP routes, WebSockets: a request arrives, a reply is lost, an ioctl fails.
- The VT engine and xterm: only the trace of feeds and resizes, and the bytes and grids parsed.
- `TerminalView.TerminalView.HandleFrame`: the promise chain is modelled by each step being one method; the control check after a frame is the method `Drop`.
- `Follower.WatchersReplicateTheStream`: a cursor ahead of a restarted keeper's output gets an error until the output has caught up; that reply is modelled as lost.
- `EndToEnd.AcknowledgedIsWritten`: a request is delivered at most once, nobody else uses the lease's generation, and the view last sent under another one; a keeper restarted in between may grant the same number again (`Leases.OldAnswersCountOnlyUnderTheirGeneration` says what happens then).
- Clipboard, telemetry, percentiles, resource history, devices, labels, desktop and mobile interfaces: easy members or library code.
