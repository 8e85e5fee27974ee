# Stella, modelled and proved

Stella is a desktop app whose conversations live in a server journal. This
project models its hardest logic in Dafny and proves what that logic is for.
Objects the program updates in place are classes here, loops are loops, and
each such method is tied by its postcondition to a function on values; the
theorems are about those functions, over every input and every run.

- **The conversation stream** (`SocketSpec`, `ConversationSocket`, `SocketStart`,
  `SocketDelivery`, `SocketRepair`, `SocketReach`, `SocketRequests`,
  `SocketServed`, `SocketPending`, `SocketScrollback`, `SocketAnswers`,
  `BackfillBudget`). The journal is a function from epoch and sequence number to
  contents; the network may drop, repeat and reorder frames; a timer is a step
  that may happen once armed. `SocketSpec` gives every handler of the client as a
  function on its state, `ConversationSocket` is the class with the program's
  fields. `SocketDelivery` proves exactly-once in-order delivery over all runs
  and `SocketStart` where the stream starts. `SocketRepair` proves that gap repair
  ends and is paid for, `SocketReach` that it gets wherever it is needed,
  `SocketRequests` what it asks for, `SocketServed` that an honest server brings
  the stream to its head, `SocketPending` when a repair is lost.
  `SocketScrollback` proves that every range asked for is answered once,
  `SocketAnswers` what the answers hold.
- **The view** (`ConversationView`, `StreamView`): the bounded window over that
  stream, and the two joined end to end.
- **Agent activity** (`AgentActivity`, `AgentFencing`, `AgentBatches`,
  `AgentTrim`): the incremental fold over journal rows, its attempt fencing in
  every arrival order, when cutting the journal into batches is harmless, and
  what trimming forgets.
- **The launcher** (`Repository`, `Supervisor`, `SupervisorHistory`,
  `LauncherRun`, `LauncherSigning`, `LauncherKnownGood`, `Launcher`): an
  abstract git checkout with signatures that verify exactly what they signed,
  the event loop that watches Electron, and the main loop around it. `Supervisor` and `LauncherRun` are
  functions of everything the outside does, `Launcher` is the code in place.
- **The launcher's codecs** (`OutputRing`, `MiniJson`, `MiniJsonParser`,
  `LauncherState`, `CommandLine`, `DerSignature`): the output ring buffer, the
  JSON reader and writer with their buffers, the state file, Windows argument
  quoting and ECDSA signature encoding.
- **Prompt fences** (`PromptLines`, `PromptFences`): validation and rendering of
  conditional prompt sources against the tree of blocks they draw.
- **Reply context** (`ReplySpec`, `ReplyProjector`, `ReplyRows`,
  `ReplyProperties`): which replies are worth quoting and counting, computed by
  a loop over aliased mutable sets that refines a recursion over numbered
  exchanges.
- **Sealed text and chat transcripts** (`SealBytes`, `PiChat`).

Where a promise does not hold as written, the model keeps the code and the
project says exactly when it does hold:

- A backfill frame that overflows the early-row buffer halfway is still flushed
  after the reset, so rows the reset disowned are announced
  (`SocketDelivery.RepairDeliversIffNoSplit`, `SocketDelivery.SplitHappens`).
- A forced reconnect keeps the pending-repair mark, and the resume timer sets it
  even when its request is not sent. Either way the client may wait for nothing
  and never ask again (`SocketPending.StrandedIff`,
  `SocketPending.LostRepairStaysLost`, `SocketPending.StrandingHappens`).
- A server that sends the last row of a scrollback range without calling the
  reply complete gets the whole range answered as incomplete
  (`SocketAnswers.AnswersHold`).
- A scrollback page that arrives after the view was trimmed is accepted and
  leaves a hole (`ConversationViews.PrependContiguousIff`,
  `ConversationViews.StalePageLeavesHole`).
- An untitled newest start does not always leave its agent running
  (`AgentFencing.NewestRunsInEveryOrderIff`).
- Trimming also forgets the fences of agents that have no entry, so an old or
  late start card can leave a finished agent running
  (`AgentTrim.TrimInvisibleIff`, `AgentTrim.ForgottenRestartsIff`,
  `AgentTrim.LateStartRuns`).
- Output lines are copied as C strings, so a NUL cuts one
  (`OutputRing.ShownUncutIff`).

Two functions have inputs on which they would not do what their callers want,
and no caller reaches them. The program name of a Windows command line is read
by a rule without escapes, so a name with a quote, or a quoted one ending in a
backslash, would not come back (`CommandLines.CommandLineRoundTripIff`,
`CommandLines.DirectoryNameLost`); `argv[0]` is always a program to run. The
fast transcript append skips the sort (`PiChat.AppendIsMergeIff`,
`PiChat.AppendSkipsSort`); every transcript that events lead to is sorted
(`PiChat.ReachedAppendsMerge`).

## Model

| member | source | states |
|---|---|---|
| SocketDelivery.RunDelivers | packages/contracts/conversation-socket.ts:721-974 | exactly once, in order, over every run: from a delivered state, whatever frames are dropped, repeated or reordered and however often the client resets, closes and reconnects, the rows announced since the last reset stay one gapless segment of one journal ending at `lastSeq`, provided rows come from the journal and no backfill frame overflows the buffer after placing a row; where the segment starts is SocketStart.StartIsPromised |
| SocketDelivery.DeliveredMeans | packages/contracts/conversation-socket.ts:252-275 | for every such run from a new client: the announced rows are the journal's, of the epoch of the last `ready` or the restored cursor, numbered one by one from the promised row (restored cursor plus one, or the start of the window in force when the client last held no position) through `lastSeq` |
| SocketStart.StartIsPromised | packages/contracts/conversation-socket.ts:932-938 | after any run from a new client, fair or not, window and epoch are those of the last `ready` taken up or the restored cursor, and the stream starts at the promised row, never at whichever row arrived first |
| SocketDelivery.InitialDelivered | packages/contracts/conversation-socket.ts:252-275 | a new client, with no cursor, a rejected one or an accepted one, starts delivered |
| SocketDelivery.RepairDeliversIffNoSplit | packages/contracts/conversation-socket.ts:863-873 | a repair reply keeps the stream one gapless segment if and only if none of its rows overflows the buffer after another row of the same frame was placed |
| SocketDelivery.SplitHappens | packages/contracts/conversation-socket.ts:872-873 | the failing case is reached: a restored client that goes online, buffers 512 genuine live rows and gets the first and third of the five rows it asked for announces a row that its own reset just disowned |
| SocketDelivery.FullBufferSplits | packages/contracts/conversation-socket.ts:941-946 | with the buffer full, any frame holding the next row and one beyond the hole splits |
| SocketDelivery.BufferGrowth | packages/contracts/conversation-socket.ts:932-961 | a frame whose rows fit beside those already buffered never splits, and the buffer grows by at most the frame |
| SocketDelivery.CollectInOrder | packages/contracts/conversation-socket.ts:932-961 | placing one genuine row keeps placed and announced rows one segment and every buffered row genuine |
| SocketDelivery.ReadyDelivers | packages/contracts/conversation-socket.ts:721-769 | every `ready`, same epoch or not, bridgeable or not, near or far behind, leaves the stream delivered |
| SocketDelivery.OlderReplySameStream | packages/contracts/conversation-socket.ts:827-862 | a scrollback reply touches nothing the live stream consists of |
| StreamView.ViewFollowsStream | packages/contracts/conversation-store-reducer.ts:170-212 | end to end, over every fair run of a new client: a view fed every batch since the last reset holds exactly the newest rows of the journal, at most 3000, gapless from the promised row or the bound up to the socket's `lastSeq` |
| SocketRepair.ReplyMeasure | packages/contracts/conversation-socket.ts:863-899 | every repair reply that leaves rows missing strictly lowers `3*(T - lastSeq) + (3 - noProgressBackfills)`; one that leaves none raises it by at most two; the third fruitless one in a row stops the client |
| SocketRepair.RepairsTerminate | packages/contracts/conversation-socket.ts:863-923 | over any run of rows and repair replies on one connection the number of replies that leave rows missing is bounded by the measure at its start and the replies that left none |
| SocketReach.RepairsReach | packages/contracts/conversation-socket.ts:863-923 | whatever row T is: along a run in which no row overflows the buffer, due timers find the socket open and replies answer the request last sent, whatever they hold, as many replies as `6*(T - lastSeq)` and at most six more bring the stream to T or the client has stopped; replies that find an interior hole and ask for it are among them |
| SocketRequests.StepAsksWanted | packages/contracts/conversation-socket.ts:976-994 | in every step at most one repair request goes out, and it asks for the rows from the one after the cursor (of an empty view the newest 100) through the hole, the end of the range judged or the head, at most 2000 |
| SocketRequests.RequestsMean | packages/contracts/conversation-socket.ts:777-801 | over every run from a new client every repair or resume request sent was called for by some step in that sense |
| SocketServed.ExactReplyResolves | packages/contracts/conversation-socket.ts:863-881 | a reply holding exactly the rows asked for, the first no further than the row needed, overflows nothing, is resolved, brings the cursor to its end and leads to no further request |
| SocketServed.ServedReachesHead | packages/contracts/conversation-socket.ts:777-801 | for a connected client with nothing pending and a server that answers exactly what is asked, as many rounds of timer and reply as the gap holds 2000 rows bring the stream to the head, or a token was refused at one of them |
| SocketServed.FirstRoundReachesHead | packages/contracts/conversation-socket.ts:721-769 | a new client, cold or restored, that resumes from its cursor on an honest server's `ready` stands at the head after the first round, with no proviso about tokens |
| SocketRepair.StallsBlock | packages/contracts/conversation-socket.ts:886-892 | when every reply stalls the client is stopped by the third, however many live rows come between |
| SocketRepair.FramesBounded | packages/contracts/conversation-socket.ts:184-203 | in every run from a new client, fewer than 21 + L/3000 backfill frames (resume, repair and scrollback together) are sent in any window of L milliseconds |
| SocketPending.PendingClearsIff | packages/contracts/conversation-socket.ts:777-801 | in every step but a repair reply a pending mark is cleared if and only if the stream resets or the socket closes, and while it stands no repair is asked for; it is set if and only if a request went out, or the resume timer found no socket to take its own |
| SocketPending.ReplyAsks | packages/contracts/conversation-socket.ts:863-899 | after a repair reply the mark stands only for a new request that the reply led to, on the live socket |
| SocketPending.StrandedIff | packages/contracts/conversation-socket.ts:606-622 | over every run from a new client the mark is set with no request outstanding if and only if the socket was dropped without a close while it was set, or the resume timer's request was never sent and no earlier one was outstanding, and no reply, reset or close has come since |
| SocketPending.LostRepairStaysLost | packages/contracts/conversation-socket.ts:606-622 | with a server that answers only what was asked on the present socket, a stranded repair stays stranded, and unasked for, if and only if no reset and no close comes, whatever live rows, reconnects, timers, retries, stops and scrollback come |
| SocketPending.StrandingHappens | packages/contracts/conversation-socket.ts:777-801 | such a run exists, whether the resume timer's request was sent or not: it ends attached, running and behind its head, with the mark set and nothing outstanding |
| SocketScrollback.AnsweredOnce | packages/contracts/conversation-socket.ts:827-862 | conservation of requests, over every run from a new client: the accepted requests for a range are those answered, those still open and those dropped by a close or a reset, and there are no other answers; what an answer holds is SocketAnswers.AnswersHold |
| SocketAnswers.ReplyEndsOrGoesOn | packages/contracts/conversation-socket.ts:831-862 | a scrollback reply in its range sends the request for the remaining rows, keeping those received, if and only if it is short, not called complete and a token above the reserve and an open socket are there; otherwise it gives one answer with every row received |
| SocketAnswers.AnswersHold | packages/contracts/conversation-socket.ts:831-866 | over every run whose scrollback replies stay in range, each answer holds exactly the rows that replies brought for its range, without a gap from its first; it is complete if and only if they are the whole range and the last reply said so, and incomplete only when that reply called a short range complete, brought the last row without saying so, or going on was refused |
| SocketAnswers.CompleteAnswersAreWhole | packages/contracts/conversation-socket.ts:860-866 | over those runs an answer is complete if and only if its last reply said so and `olderRangeIsComplete` accepts its rows for the range |
| SocketAnswers.AnswersAreGenuine | packages/contracts/conversation-socket.ts:831-866 | when the replies bring the journal's rows, an answer's rows are the journal's, of the client's epoch, from the first of the range on |
| BackfillBudgets.TakeSpends | packages/contracts/conversation-socket.ts:188-202 | tokens stay between 0 and 20, a granted request leaves its reserve untouched (four for scrollback), and each grant is paid out of what the window can earn |
| BackfillBudgets.SpendableGrows | packages/contracts/conversation-socket.ts:188-195 | waiting earns at most one token every three seconds, wherever the refill falls |
| BackfillBudgets.WindowBound | packages/contracts/conversation-socket.ts:184-203 | with a clock that never goes back, after any earlier requests, fewer than 21 + L/3000 requests pass in any window of L milliseconds |
| BackfillBudgets.BackfillBudget.TakeAt | packages/contracts/conversation-socket.ts:197-202 | the method in place: grants and leaves exactly what the budget function says |
| ConversationSockets.ConversationSocket.Handle | packages/contracts/conversation-socket.ts:679-719 | the class takes every input exactly as the transition function the run theorems speak of |
| ConversationSockets.ConversationSocket.Collect | packages/contracts/conversation-socket.ts:932-961 | places, buffers, asks for the hole or resets as the specification does, through the in-place drain loop |
| ConversationSockets.ConversationSocket.HandleRepair | packages/contracts/conversation-socket.ts:863-899 | judges a repair reply as specified: resolved, progressed or stalled, then retry or stop |
| ConversationSockets.ConversationSocket.HandleOlderReply | packages/contracts/conversation-socket.ts:831-862 | the method in place takes a scrollback reply exactly as the function that SocketScrollback.AnsweredOnce counts: answer, or continuation under the next id |
| ConversationSockets.ConversationSocket.HandleReady | packages/contracts/conversation-socket.ts:721-769 | adopts head, window, floor and epoch, and resets or reconnects as specified |
| ConversationSockets.ConversationSocket.RequestGap | packages/contracts/conversation-socket.ts:976-994 | asks for at most 2000 rows, once, if a token is left and the socket takes it |
| ConversationSockets.ConversationSocket.ResumeTimer | packages/contracts/conversation-socket.ts:777-801 | the due resume timer asks for the missing tail, or the newest 100 rows of an empty view, at most once |
| ConversationSockets.ConversationSocket.RequestOlderRange | packages/contracts/conversation-socket.ts:353-367 | scrollback is refused below the floor or with fewer than five tokens, and recorded only once sent |
| ConversationViews.AppendKeepsContiguous | packages/contracts/conversation-store-reducer.ts:170-212 | from a contiguous view a contiguous batch gives a contiguous view of at most 3000 rows ending with the batch, reaching exactly as far back as the bound and the retained rows allow, with `hasOlder` set above the floor; nothing new gives null |
| ConversationViews.BatchSplit | packages/contracts/conversation-store-reducer.ts:170-212 | appending two adjacent batches equals appending their concatenation, `hasOlder` and head included |
| ConversationViews.PrependContiguousIff | packages/contracts/conversation-store-reducer.ts:214-244 | a page that `olderRangeIsComplete` accepts with its range is spliced row for row, minus what the view already holds, and gives a contiguous view if and only if it reaches the row below the oldest retained one or nothing is retained |
| ConversationViews.StalePageLeavesHole | packages/contracts/conversation-store-reducer.ts:230-244 | a page asked for below a full view joins it, but once ten live rows have pushed out the ten oldest the same page is spliced all the same and leaves a hole of ten rows |
| AgentFencing.SettledNeverRuns | packages/contracts/conversation-agent-activity.ts:240-334 | for lifecycle cards in any arrival order, an agent whose every started attempt has a terminal card of the same generation is not left running |
| AgentFencing.LeftRunningInSomeOrderIff | packages/contracts/conversation-agent-activity.ts:240-334 | some arrival order leaves an agent running if and only if some started attempt has no terminal card and a start no later than it is titled |
| AgentFencing.NewestRuns | packages/contracts/conversation-agent-activity.ts:280-334 | a titled newest start that outranks every terminal card is left running at that generation |
| AgentFencing.NewestRunsInEveryOrderIff | packages/contracts/conversation-agent-activity.ts:280-334 | when the newest start outranks every terminal card, every arrival order leaves the agent running at it if and only if one of its start cards has a title; when none has, some order leaves the agent no entry at all |
| AgentBatches.BatchSplit | packages/contracts/conversation-agent-activity.ts:226-381 | folding `a` then `b` with the call map carried equals folding `a ++ b`, when no result in `a` answers a call made in `b` and no mirrored row in `a` names an agent first carded in `b` |
| AgentBatches.LaterCardMatters | packages/contracts/conversation-agent-activity.ts:231-237 | the second condition is needed: a concrete pair of rows folds differently without it |
| AgentBatches.LaterCallMatters | packages/contracts/conversation-agent-activity.ts:194-219 | the first condition is needed: a concrete pair of rows folds differently without it |
| AgentActivity.AgentActivityState.FoldAgentActivity | packages/contracts/conversation-agent-activity.ts:226-381 | the in-place fold over entries, generations, settled generations and carded ids computes the specification's state and call map |
| AgentActivity.ToolCallMap.Collect | packages/contracts/conversation-agent-activity.ts:194-219 | the call map keeps the last call of every id |
| AgentTrim.DropsOldestSettled | packages/contracts/conversation-agent-activity.ts:401-413 | trimming forgets only settled agents, exactly as many as exceed 256, and none updated later than one it keeps |
| AgentTrim.TrimKeepsIff | packages/contracts/conversation-agent-activity.ts:397-442 | for every agent, everything known of it is kept if and only if it is not among the dropped and, when it has no entry, nothing kept of it is in a collection still past 256; a running agent always keeps everything |
| AgentTrim.TrimInvisibleIff | packages/contracts/conversation-agent-activity.ts:397-442 | trimming between folds is invisible to an agent, whatever rows follow, if and only if it is not forgotten in that sense |
| AgentTrim.ForgottenRestartsIff | packages/contracts/conversation-agent-activity.ts:401-432 | an old start card that the untrimmed state shuts out starts its agent after a trim if and only if its fence was forgotten, the card is titled and numbered above zero, and no newer attempt is still known |
| AgentTrim.LateStartRuns | packages/contracts/conversation-agent-activity.ts:428-432 | a concrete case with nothing dropped: after 257 terminal cards that came before their start cards, a trim lets the late start card of a finished attempt leave its agent running |
| AgentTrim.TrimCallsKeepsNewest | packages/contracts/conversation-agent-activity.ts:433-441 | of the tool calls at most 512 are kept, exactly the ones whose ids were first set last, unchanged |
| AgentTrim.TrimToolCalls | packages/contracts/conversation-agent-activity.ts:433-441 | the loop over the oldest keys leaves exactly those |
| AgentTrim.TrimAgentActivity | packages/contracts/conversation-agent-activity.ts:397-432 | the method in place leaves exactly the trimmed state, given the entry map's insertion order |
| Repository.ReturnGoesForward | launcher/linux/stella-launcher.c:2575-2610 | with a known-good ref, `return_to_known_good` rewrites no commit, leaves the ref and every note but the new HEAD's alone, and keeps the old HEAD as itself or an ancestor, whether or not it succeeds; when it succeeds HEAD's tree is the known-good tree, signed and clean |
| Repository.ReturnSucceedsIff | launcher/linux/stella-launcher.c:2575-2610 | it succeeds exactly when the commands it needs work: stashing only over changes, committing and merging only when the trees differ |
| Repository.VerifyIffTrusted | launcher/linux/stella-launcher.c:1101-1120 | `verify_head` says signed exactly when every command worked, nothing is uncommitted and HEAD's note is this key's signature over HEAD's own tree |
| Repository.SignedVerifies | launcher/linux/stella-launcher.c:1123-1150 | signing succeeds only on the expected, clean HEAD, makes it verify, and touches no other commit, ref or note |
| SupervisorHistory.KnownGoodMovesIff | launcher/linux/stella-launcher.c:2333-2490 | the known-good ref moves in a turn of the event loop if and only if the history earns it: first ready plus the stable period has passed for the first time, Electron was not reaped before, no failure was reported, startup was in time, HEAD was known and `update-ref` works; it moves to the HEAD that was spawned, and in every other turn is what Electron left it at |
| SupervisorHistory.MarksOnce | launcher/linux/stella-launcher.c:2446-2453 | a supervised run moves the ref at most once: at most one prefix of its turns earns it, and it is marked then |
| SupervisorHistory.RefFollowsHistory | launcher/linux/stella-launcher.c:2361-2453 | over a whole supervised run the ref is where its history alone puts it: the spawned HEAD once earned, else what Electron last left |
| SupervisorHistory.FailureEnds | launcher/linux/stella-launcher.c:2274-2278 | once a failure is reported or startup is late Electron has been told to terminate; the kill deadline is eight seconds after it was first told, and any later turn past it kills |
| SupervisorHistory.FailuresAreTold | launcher/linux/stella-launcher.c:2492-2510 | the outcome is a reported problem or a late start if and only if the history holds one, however Electron exits |
| LauncherRun.RunIsSafe | launcher/linux/stella-launcher.c:2911-3078 | in every run, each spawn directly follows a `verify_head` that found HEAD signed by this launcher and clean, and each logged mark is of the HEAD spawned just before and was earned by the turns since; that the ref moves by marks only is LauncherKnownGood.RunRef |
| LauncherRun.SpawnsWhatItChecked | launcher/linux/stella-launcher.c:2911-2947 | when nothing moves the checkout between the check and the spawn, what is spawned is what was checked |
| LauncherRun.MarksAreEarned | launcher/linux/stella-launcher.c:2446-2453 | the marks a supervised run logs are exactly the prefixes of its own turns that earn one |
| LauncherRun.CrashLoopIff | launcher/linux/stella-launcher.c:3028-3048 | given the one crash that can be remembered, an early crash ends the restarts if and only if that one lies within twice the stable period |
| LauncherRun.RunSettles | launcher/linux/stella-launcher.c:2955-3078 | at the loop's head at most one early crash is remembered, so the array of eight is never full; after a failure nothing starts unasked, but for a self-test's one scripted answer |
| LauncherKnownGood.SupervisedRef | launcher/linux/stella-launcher.c:2333-2536 | after supervising, whatever the outcome, the ref is where the history of the turns puts it |
| LauncherKnownGood.RoundRef | launcher/linux/stella-launcher.c:2955-3078 | at the end of a round the ref is one that entered the checkout, or the head of a mark the round logged and its turns earned |
| LauncherKnownGood.RunRef | launcher/linux/stella-launcher.c:2955-3078 | over every run the ref is the one at the start, one that came with a round (a clone, or a change by the user or Electron), or the head of a logged, earned mark: the launcher moves it in no other way |
| LauncherSigning.OnlySignedTreesRun | launcher/linux/stella-launcher.c:1101-1150 | over every run, whatever Electron and the user do to the checkout short of forging a signature, every tree that was spawned had been signed by the launcher |
| LauncherSigning.RollbackRuns | launcher/linux/stella-launcher.c:2995-3013 | a rollback that works makes the next check find HEAD signed with the known-good tree, old HEAD behind it, and that HEAD is spawned |
| Launcher.Supervision.Turn | launcher/linux/stella-launcher.c:2361-2474 | one turn in place, timer array and flags included, is the specification's turn |
| Launcher.Supervision.Fire | launcher/linux/stella-launcher.c:2435-2471 | each due timer is cleared and does what its case says |
| Launcher.Supervision.Outcome | launcher/linux/stella-launcher.c:2492-2535 | the classification of an exit, with the announced code overriding the real one |
| Launcher.Launcher.RunLoop | launcher/linux/stella-launcher.c:2955-3078 | the main loop, with its array of crash times and its command variable, computes the run the theorems are about |
| Launcher.Launcher.ReturnToKnownGood | launcher/linux/stella-launcher.c:2575-2610 | the rollback in place, step by step, leaves the disk the specification says |
| Launcher.Launcher.PrepareForLaunch | launcher/linux/stella-launcher.c:2911-2947 | installs and signs a missing checkout, checks HEAD, and is ready only if that said signed |
| Launcher.Launcher.Supervise | launcher/linux/stella-launcher.c:2333-2536 | spawning, watching and judging one Electron is the specification's supervised run |
| Launcher.Launcher.RecordCrash | launcher/linux/stella-launcher.c:3029-3036 | in-place compaction keeps the recent early crashes in order and adds the new one |
| Launcher.Launcher.Recover | launcher/linux/stella-launcher.c:2867-2893 | a failure waits for the user, quits without a window, or takes the self-test's answer once |
| OutputRing.Electron.LastLines | launcher/linux/stella-launcher.c:2145-2154 | for every byte stream, however it was cut into reads, the result is the last 40 of the completed lines and the non-empty unfinished one, each up to its first NUL |
| OutputRing.Electron.Append | launcher/linux/stella-launcher.c:2130-2143 | one read extends the stream: completed lines enter the ring, the rest stays unfinished |
| OutputRing.Electron.PushLine | launcher/linux/stella-launcher.c:2114-2128 | the ring's index arithmetic keeps the last 40 lines in order |
| OutputRing.LinesRebuildStream | launcher/linux/stella-launcher.c:2130-2143 | the completed lines and the unfinished one, with their breaks, are the stream, and no line holds a break |
| OutputRing.LinesUnique | launcher/linux/stella-launcher.c:2130-2143 | no other lines do that |
| OutputRing.ShownUncutIff | launcher/linux/stella-launcher.c:2145-2154 | the report is uncut if and only if none of the lines shown holds a NUL |
| OutputRing.NulCutsLine | launcher/linux/stella-launcher.c:2151-2152 | a concrete output line that loses its tail to a NUL |
| MiniJson.QuoteRoundTrip | launcher/common/mini_json.h:248-274 | parsing what `mj_quote` wrote for any byte string gives that string (section 7 of RFC 8259) |
| MiniJson.EscapeReads | launcher/common/mini_json.h:87-129 | an escaped string reads back as itself wherever it stands in a document, leaving the cursor past its closing quote |
| MiniJsonParser.QuoteString | launcher/common/mini_json.h:248-274 | every write stays inside the six-bytes-a-character buffer, which ends NUL-terminated with the quoted string in it |
| MiniJsonParser.Parser.ParseString | launcher/common/mini_json.h:87-129 | every write stays inside a buffer one byte longer than the input left, and the text and cursor are the grammar's |
| MiniJsonParser.Parser.ReadHex4 | launcher/common/mini_json.h:62-74 | four hex digits or nothing, the cursor moved by four on success and left alone otherwise |
| MiniJsonParser.Parser.ReadUnicode | launcher/common/mini_json.h:109-119 | surrogate pairs joined, lone ones replaced, a bad second escape refused |
| MiniJsonParser.Parser.ParseValue | launcher/common/mini_json.h:147-213 | the recursive descent with its depth counter accepts and returns exactly what the grammar functions do |
| MiniJsonParser.ParseDocument | launcher/common/mini_json.h:216-225 | a document is a value with white space around it, nothing else |
| LauncherState.StateRoundTrip | launcher/linux/stella-launcher.c:380-418 | loading what was saved restores every field that was set and every one that was not, for all C strings |
| LauncherState.DocumentReads | launcher/linux/stella-launcher.c:395-418 | the written document parses to exactly the fields written, in order |
| LauncherState.Store.Save | launcher/linux/stella-launcher.c:395-418 | the loop writes the present fields with commas between them only |
| LauncherState.Store.Load | launcher/linux/stella-launcher.c:380-393 | a missing, unreadable or malformed file leaves every field unset |
| CommandLines.ArgsRoundTrip | launcher/windows/stella-launcher.cpp:551-572 | splitting the arguments after the program name by the CommandLineToArgvW rules gives back the list, empty arguments, backslash runs and quotes included |
| CommandLines.CommandLineRoundTripIff | launcher/windows/stella-launcher.cpp:565-572 | the whole command line splits back into `argv` if and only if there is a program name, it holds no quote and, when it must be quoted, does not end in a backslash |
| CommandLines.DirectoryNameLost | launcher/windows/stella-launcher.cpp:551-572 | a concrete name for which it does not |
| CommandLines.QuoteArg | launcher/windows/stella-launcher.cpp:551-563 | the loop that counts backslashes writes the quoted argument |
| CommandLines.JoinCommandLine | launcher/windows/stella-launcher.cpp:565-572 | the loop joins quoted arguments with single spaces |
| DerSignatures.SignatureRoundTrip | launcher/windows/stella-launcher.cpp:765-805 | every 64-byte signature survives DER and back; the encoding is two minimal INTEGERs with the values of its halves, in 8 to 72 bytes (sections 8.3 and 10.1 of ITU-T X.690, section 2.2.3 of RFC 3279) |
| DerSignatures.ContentMeans | launcher/windows/stella-launcher.cpp:765-772 | the content octets are minimal, non-negative and of the same value, and read back to the 32 bytes |
| DerSignatures.EncodeDer | launcher/windows/stella-launcher.cpp:774-781 | the byte-appending encoder writes that encoding |
| DerSignatures.DecodeDer | launcher/windows/stella-launcher.cpp:783-805 | the index-advancing decoder fills the halves of the raw buffer and accepts exactly what the specification accepts |
| SealBytes.SealRoundTrip | packages/contracts/user-ask.ts:689-720 | decoding the sealed bytes gives back every UTF-16 string, lone surrogates included |
| SealBytes.SealInjective | packages/contracts/user-ask.ts:689-720 | no two strings share their bytes |
| SealBytes.SealValidIff | packages/contracts/user-ask.ts:689-720 | the bytes are valid UTF-8 (section 3 of RFC 3629) if and only if the string has no lone surrogate |
| SealBytes.SealUtf8Bytes | packages/contracts/user-ask.ts:689-720 | the loop over code units writes those bytes |
| PromptFences.ValidIffBlocks | packages/contracts/stella-prompts.ts:130-149 | validation finds nothing if and only if every fence line is well formed and the source is the layout of a tree of blocks |
| PromptFences.RenderingShowsBlocks | packages/contracts/stella-prompts.ts:156-211 | for such a source rendering succeeds and its non-blank lines are exactly the non-blank lines the block tree shows in that context, in order |
| PromptFences.RenderedStable | packages/contracts/stella-prompts.ts:164-211 | rendered text has no fence lines, so rendering it again in any context changes nothing |
| PromptFences.UnfencedUnchanged | packages/contracts/stella-prompts.ts:164-211 | rendering leaves a source without fences as it is |
| PromptFences.WrittenIff | packages/contracts/stella-prompts.ts:183-209 | a line is written if and only if it is shown and is not a blank that a hidden line separates from a blank already written or from the start |
| PromptFences.Validate | packages/contracts/stella-prompts.ts:130-149 | the loop with its stack of open line numbers reports exactly the specified problems, in order |
| PromptFences.Render | packages/contracts/stella-prompts.ts:171-211 | the loop with its stack, output and drop flag writes the specified lines, and refuses what validation refuses |
| PromptFences.HasFences | packages/contracts/stella-prompts.ts:151-154 | some line is a fence, well formed or not |
| PromptLines.OpensIff | packages/contracts/stella-prompts.ts:86-128 | a line opens a block for a condition if and only if, trimmed, it is that condition's fence and its tool may be named |
| ReplyProperties.ExchangeMeans | packages/contracts/reply-context.ts:76-140 | an exchange's key set holds exactly the keys of the rows that are part of it: written there, or part of an exchange that one of its replies went back to by answering an ask under any of its ids; all read off the rows alone |
| ReplyProperties.NearMeans | packages/contracts/reply-context.ts:99-104 | the set a reply is judged against holds exactly the keys of the rows near it |
| ReplyProperties.SinceLastAskIsNear | packages/contracts/reply-context.ts:24-28 | every visible row since the last visible user message is near |
| ReplyRows.AsksMean | packages/contracts/reply-context.ts:85-93 | the projection's sets are numbered by the visible asks, and an id names the set of the latest ask known by it, own id or alias |
| ReplyRows.OriginsMean | packages/contracts/reply-context.ts:94-110 | a task's origin is the ask of the last visible row that owns it: the ask itself, the first one its reply answers, or else the last one asked |
| ReplyProperties.QuotesOutside | packages/contracts/reply-context.ts:111-117 | what is quoted is the first reference that no near row mentions, but the first such task before any message; something is quoted as soon as one exists |
| ReplyProperties.CountsAreReplies | packages/contracts/reply-context.ts:118-130 | a message's count is the number of replies with an outside reference to it or to a task that came from it, each reply once |
| ReplyProperties.TaskCountsAreCitations | packages/contracts/reply-context.ts:119-127 | a task's count is the number of citations of it from outside |
| ReplyProperties.HiddenRowsDrop | packages/contracts/reply-context.ts:83-84 | hidden rows have no effect: the projection is that of the visible rows |
| ReplyProjector.ProjectRows | packages/contracts/reply-context.ts:70-142 | the loop over shared mutable sets computes the same contexts, counts, origins and exchanges as the recursion over numbered exchanges |
| ReplyProjector.Projector.AssistantRow | packages/contracts/reply-context.ts:99-139 | one reply updates the present set and every set it rejoined, through aliases, exactly as specified |
| ReplyProjector.Projector.UserRow | packages/contracts/reply-context.ts:85-98 | one ask begins a set of its own, shared under its id and every alias |
| PiChat.TranscriptIsLatest | packages/contracts/pi-chat.ts:363-458 | after any batches the entries ascend strictly by id and hold an entry if and only if it is the last delivered version of its id |
| PiChat.AppendIsMergeIff | packages/contracts/pi-chat.ts:319-323 | the fast append equals merging one entry if and only if the entries ascend or the fast path is not taken |
| PiChat.AppendSkipsSort | packages/contracts/pi-chat.ts:319-323 | a concrete list out of order on which they differ |
| PiChat.ReachedAppendsMerge | packages/contracts/pi-chat.ts:363-458 | no transcript that events lead to is one: there the fast append is always the merge |
| PiChat.RedeliveryChangesNothing | packages/contracts/pi-chat.ts:310-323 | delivering again what is already the latest version changes nothing, by any event |
| PiChat.WatchersAgree | packages/contracts/pi-chat.ts:363-458 | two watchers told the same last versions in any order and grouping hold the same transcript |
| PiChat.MergeEntries | packages/contracts/pi-chat.ts:311-317 | the map loops and the sort give the merged list |
| PiChat.ReduceChat | packages/contracts/pi-chat.ts:453-458 | the loop over events folds them in order |
## Left out

- Sockets, tokens, timers and callbacks: a step of the model says what arrived; calls to the outside are entries of a log. Each handler reads the clock once, and a send succeeds exactly when the socket is attached and open.
- Status lines, backoff, jitter, keepalive, re-authentication and wake-up probes of the socket: none of them touches the cursor, the buffer or the budget. A socket replaced while closing is a forced reconnect, and a retry pressed while connecting counts as one more connect.
- Token arithmetic is over exact reals, not doubles, and sequence numbers are unbounded integers, so the safe-integer checks of a restored cursor always pass.
- Live turns, tools and notices of the view's reducer (conversation-store-reducer.ts:96-160): easy case splits over the same rows.
- Decoding of wake prompts, cards and tool results in the activity fold: rows arrive decoded and trimmed, with an empty text for an absent one.
- AgentTrim.TrimAgentActivity: takes the entry map's insertion order as a parameter, because the model's maps have none, and AgentTrim.TrimToolCalls the call map's; the order of `runningAgentEntries` is left out for the same reason.
- Git, OpenSSL, BCrypt and the key store: a repository is commits, HEAD, the known-good ref, notes and a count of changed files; every command is a boolean that says whether it worked, and a signature is the pair of key and tree.
- LauncherSigning.OnlySignedTreesRun: assumes that nothing brings in a note that is this key's signature over a tree it never signed, and that nothing touches the checkout between the check and the spawn.
- SupervisorHistory.KnownGoodMovesIff: assumes positive clock readings and non-negative timeouts, because the code uses a zero deadline for "no timer"; each timer pass reads the clock once.
- The launcher's self-update, its window, desktop entry and downloads; a hand-over to a newer launcher ends the run. Channel messages arrive parsed. The Windows supervisor is a second copy of the Linux one and is not modelled again.
- Paths, time stamps and messages in errors; error reasons are kept as cases.
- Allocation failure: `malloc`, `realloc` and `strdup` always succeed.
- `strtod`: a JSON number is its characters.
- Windows argument characters are modelled as Unicode scalar values rather than UTF-16 units; the quoting rules look only at ASCII. The splitting rules are those CommandLineToArgvW and the C runtime share; a doubled quote inside quotes, where they differ, is never written by the quoting.
- Prompt text is modelled as Unicode scalar values: a lone surrogate would behave like any other character that is not white space. Error texts of validation are cases with their line numbers.
- Reply counts are kept in plain objects by the program, so an id such as `__proto__` would misbehave there; the model's maps have no such names. Rows are given with absent lists as empty ones, and keys such as `m:id` as tagged ids.
- Chat events that carry no entry (runs, streaming text, tools, queue, compaction): they leave the entries alone and only set single fields.
- `titleNamesThread`, `replyCountFor` and the rest of the contracts package: one branch settles each claim.
