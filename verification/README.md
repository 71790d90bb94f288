# Verified models of the channel broker and the measurement harnesses

The Claude channel plugin and the harnesses around the server all run on one
JavaScript event loop: a handler is atomic between awaits, and a run is any
interleaving of handlers, timers and I/O completions. This project states what
those components keep over every such run, and proves it.

| file | component |
|---|---|
| `Broker.dfy`, `BrokerServer.dfy`, `BrokerFrames.dfy`, `BrokerRuns.dfy`, `BrokerPruning.dfy`, `BrokerReports.dfy` | the channel broker: its handlers as steps, the program, the frames each handler sends, replay against the live stream, late joiners and idle pruning, error reports |
| `Permissions.dfy` | the promises, timers and map behind request_permission |
| `SessionLog.dfy`, `TranscriptDiff.dfy`, `SessionLabels.dfy`, `RestartEvidence.dfy`, `CrashRows.dfy` | the crash evidence: session-log parser, common-prefix diff, what labels tell apart, "working again", counts |
| `Mailbox.dfy` | the burst client's inbox and waiters |
| `TypeClosure.dfy` | the worklist that closes the exported types |
| `StreamOracle.dfy`, `StreamReading.dfy` | the oracle that decides whether a streamed reply was rendered once, and its verdict in characters and places |
| `Inspector.dfy` | the inspector client's request multiplexer |
| `ChildTracking.dfy`, `Wave.dfy` | the load driver: ownership of child sessions with sweep and drain, and the accounts of one wave |
| `Reconnect.dfy` | the reconnecting browser-like client |
| `ArgParser.dfy` | the audio lab's argument parser and its printer |

Every stateful component has the same three layers. A class holds the source's
fields and updates them in place, one method for each stretch of code between
two awaits; its methods are proved to take exactly the steps of a state machine
over values. The machine's `Run` folds a trace, any sequence of steps, and a
step that cannot happen changes nothing. The theorems then relate the state
after a run to definitions over the trace alone, or conserve something over
every run. Loops over values are methods with invariants, proved against
functions whose meaning is proved beside them.

Where the code does not do what is said of it, the project keeps the code, gives
a failing input, and proves exactly when the code does meet the property:

| promise | failing input | holds exactly when |
|---|---|---|
| a late joiner is told the last broadcast status | `ForgedStatusMisleads` | `StatusRun`, `LateJoiner` |
| the first response in time settles its request | `ReusedIdLosesTheAnswer` | `ResponseAnswersOnFile` |
| working stays working, and its time stays fixed | `UntimedTextStopsTheClock` | `WorkingForGoodExactly`, `FirstTimeFixedExactly` |
| different calls have different labels | `ColonsConfuseCalls` | `LabelsAgreeExactly` |
| editsLost counts every edit lost | `FiftyFirstEditUncounted` | `EditsLostExactly` |
| an opening shown twice is rejected | `LongOpeningEscapes` | `CaughtExactlyUpTo64` |
| a reply rendered once, and seen growing and whole, is accepted | `OlderBubbleFailsReply` | `RenderedOnceAcceptedExactly` |
| a reply seen before the prompt ended is accepted | `WholeReplyIsNotStreaming` | `GrowingReplyPassesExactly` |
| every unfinished child is seen by the drain | `SharedTokenOpensAGap`, `SharedSessionOpensAGap` | `SeenThroughoutExactly` |
| a wave meets its target | `StoppedOrFailedTopUpMisses` | `TargetMetExactly` |
| the anomaly flag is true of the result | `LateSuccessBeliesAnomaly` | `ReportedFlagStaysTrueExactly` |
| one login, socket or timer at a time | `TwoStartsTwoSockets` | `OneConnectionAtATime` |
| no connection opens after close() | `LoginOutlivesClose` | `CloseIsFinalExactly` |
| every socket is closed after close() | `LoginOutlivesClose` | `CloseEndsAllExactly` |
| connected tells whether a socket is open | `ConnectedLies` | `ConnectedTellsTheTruth` |
| parsing undoes printing | `BareFlagSwallowsPositional` | `RoundTripExactly` |

Where the code and its own words disagree, the code is followed:

- scripts/e2a-crash/analysis.ts:174-175 promises one assistant record per
  message; adjacent assistant messages merge into one record.
- scripts/e2a-crash/analysis.ts:192-196 skips lines that do not decode, but the
  line `null` decodes and then throws.
- scripts/e2a-rerun/oracle_lib.py:71-78 lets a live bubble with the whole reply
  count as streaming; the code asks for a proper prefix. Lines 105-106 speak of
  different prefixes; the code also rejects two bubbles with the same one.
- scripts/heap-soak/driver.ts:127-137 calls its `orphan_swept` branch a safety
  net; with fresh ids it is never taken.

`dafny verify dfyconfig.toml` checks the whole project.

## Model

| member | source | states |
|---|---|---|
| `BrokerServer.ChannelBroker.constructor` | pi-claude-channel/server.ts:26-32 | The broker starts with empty maps and sets. |
| `BrokerServer.ChannelBroker.SocketSend` | pi-claude-channel/server.ts:446-448 | One frame is appended to what one socket has been sent; nobody else gets anything. |
| `BrokerServer.ChannelBroker.SendToAll` | pi-claude-channel/server.ts:51-54 | The loop sends the frame to every client of the set exactly once, in whatever order the set is visited. |
| `BrokerServer.ChannelBroker.Broadcast` | pi-claude-channel/server.ts:42-66 | Sends the event to the session's clients and to the global ones, and appends it to the session's cache only when it is to be recorded; nothing else changes. |
| `BrokerServer.ChannelBroker.SetStatus` | pi-claude-channel/server.ts:68-71 | Stores the status and broadcasts it unrecorded. |
| `BrokerServer.ChannelBroker.ToolReply` | pi-claude-channel/server.ts:219-247 | Four recorded broadcasts in order, then the status idle. |
| `BrokerServer.ChannelBroker.ToolStatus` | pi-claude-channel/server.ts:249-262 | One unrecorded broadcast. |
| `BrokerServer.ChannelBroker.FetchHistory` | pi-claude-channel/server.ts:264-275 | The cached events, or their last `limit` when a limit other than 0 is given. |
| `BrokerServer.ChannelBroker.ToolRequestPermission` | pi-claude-channel/server.ts:277-298 | One unrecorded broadcast. |
| `BrokerServer.ChannelBroker.ToolSendEvent` | pi-claude-channel/server.ts:322-339 | One recorded broadcast whose payload overrides the type and session fields; a tool name is remembered. |
| `BrokerServer.ChannelBroker.OnPrompt` | pi-claude-channel/server.ts:355-378 | Status streaming, one recorded broadcast, then an acknowledgement to the sender alone. |
| `BrokerServer.ChannelBroker.OnFetchHistory` | pi-claude-channel/server.ts:402-411 | The answer goes to the asking socket alone; no session changes. |
| `BrokerServer.ChannelBroker.OnSetModel` | pi-claude-channel/server.ts:413-420 | Sets the session's model and nothing else. |
| `BrokerServer.ChannelBroker.OnNotificationFailed` | pi-claude-channel/server.ts:83-98 | Within 10 s of the last report nothing happens; later the time is stored and, with a session, the error is broadcast unrecorded. |
| `BrokerServer.ChannelBroker.Seat` | pi-claude-channel/server.ts:435-444 | A socket is filed as global or under its session, and its session is no longer counted as disconnected. |
| `BrokerServer.ChannelBroker.OnOpen` | pi-claude-channel/server.ts:434-449 | After filing the socket, it alone is told the stored status, or idle. |
| `BrokerServer.ChannelBroker.OnClose` | pi-claude-channel/server.ts:458-469 | A socket is unfiled everywhere; the last one to leave a session removes its set and stamps the time. |
| `BrokerServer.ChannelBroker.HookSessionStart` | pi-claude-channel/server.ts:495-515 | A recorded session_init, then the status idle. |
| `BrokerServer.ChannelBroker.HookPostToolUse` | pi-claude-channel/server.ts:517-557 | A start event only for a call with output and no error, then the end event. |
| `BrokerServer.ChannelBroker.HookStop` | pi-claude-channel/server.ts:559-581 | A recorded agent_end, then the status idle. |
| `BrokerServer.ChannelBroker.HookUserPrompt` | pi-claude-channel/server.ts:583-612 | Four recorded broadcasts in order. |
| `BrokerServer.ChannelBroker.SessionsToDelete` | pi-claude-channel/server.ts:624-630 | The sessions without clients whose stamp is more than 30 minutes old. |
| `BrokerServer.ChannelBroker.PruneTick` | pi-claude-channel/server.ts:623-637 | History, model, status and stamp of those sessions go, and of no other; the last tool name stays. |
| `BrokerRuns.StepAnnounces` | pi-claude-channel/server.ts:42-66 | Whatever the handler, its effect on caches, sockets and the log of broadcasts is exactly its announced list of broadcasts. |
| `BrokerRuns.ValidRun` | pi-claude-channel/server.ts:434-469 | In every run no client set is empty, every socket is filed once under its own session, and no session is both connected and stamped as disconnected. |
| `BrokerRuns.WireLogsEveryCast` | pi-claude-channel/server.ts:42-66 | Over a run the log of broadcasts is the concatenation of what the steps announce. |
| `BrokerRuns.CacheIsRecordedWire` | pi-claude-channel/server.ts:61-65 | Unless pruned, a session's cache grows by exactly its recorded broadcasts, in order. |
| `BrokerRuns.ConnectedHearsEverything` | pi-claude-channel/server.ts:49-59 | A client connected throughout receives, in order, exactly the broadcasts meant for it. |
| `BrokerRuns.ReplayAgreesWithLive` | pi-claude-channel/server.ts:42-66 | Replay agrees with live: the cache equals the recorded part of what any session or global client connected throughout received. |
| `BrokerRuns.CacheFromStart` | pi-claude-channel/server.ts:61-65 | From start-up the cache of a session never pruned is all its recorded broadcasts. |
| `BrokerRuns.FetchAnswersFromTheWire` | pi-claude-channel/server.ts:402-411 | fetch_history returns the last min(limit, n) recorded broadcasts, all when the limit is absent or 0; a negative limit drops from the front. |
| `BrokerFrames.ReplySends` | pi-claude-channel/server.ts:219-247 | In literal events: what reply broadcasts and what it records. |
| `BrokerFrames.NoteAndAskSend` | pi-claude-channel/server.ts:249-298 | What status and request_permission broadcast. |
| `BrokerFrames.SendEventSends` | pi-claude-channel/server.ts:322-339 | What send_event broadcasts, key by key: its payload wins over type and session. |
| `BrokerFrames.PromptSends` | pi-claude-channel/server.ts:355-378 | What a prompt broadcasts, and the acknowledgement its sender alone gets. |
| `BrokerFrames.SessionStartSends` | pi-claude-channel/server.ts:495-515 | What the session-start hook broadcasts. |
| `BrokerFrames.ToolUseSends` | pi-claude-channel/server.ts:517-557 | What the post-tool-use hook broadcasts: no start for a call with an error, and the error as its result. |
| `BrokerFrames.StopSends` | pi-claude-channel/server.ts:559-581 | What the stop hook broadcasts, errors and missing reasons included. |
| `BrokerFrames.UserPromptSends` | pi-claude-channel/server.ts:583-612 | What the user-prompt hook broadcasts. |
| `BrokerFrames.FailureSends` | pi-claude-channel/server.ts:83-98 | Within 10 000 ms of the last report nothing; else the error event, for a session that is given. |
| `BrokerFrames.OpenSends` | pi-claude-channel/server.ts:445-448 | A new socket is sent one frame, its session's status or idle, and no other socket anything. |
| `BrokerFrames.FetchSends` | pi-claude-channel/server.ts:402-411 | fetch_history over a socket sends the asking socket alone one history frame, entry by entry the events cached. |
| `BrokerFrames.FetchAnswersSocket` | pi-claude-channel/server.ts:402-411 | Over runs: that frame lists, in order, the last min(limit, n) recorded broadcasts of the session, all of them without a limit, and no other socket is sent anything. |
| `BrokerReports.ReportsApart` | pi-claude-channel/server.ts:86-97 | Any two reports of a run are at least 10 s apart, whatever the clock did in between. |
| `BrokerPruning.StatusStep` | pi-claude-channel/server.ts:68-71 | One step, from any state: setStatus makes what a joiner would be told the last broadcast status, a forged session_status event does exactly when its value is told already, pruning when the last status was idle, and other steps leave it as it was. |
| `BrokerPruning.StatusRun` | pi-claude-channel/server.ts:68-71 | Over every run, what a joiner would be told is the last broadcast status if and only if the last step that changed it was no misleading forged event or pruning. |
| `BrokerPruning.LateJoiner` | pi-claude-channel/server.ts:445-448 | A late joiner is sent the status of the last session_status broadcast for its session, exactly unless so misled. |
| `BrokerPruning.ForgedStatusMisleads` | pi-claude-channel/server.ts:333-337 | The failing input: after a send_event of type session_status the joiner is told something else. |
| `BrokerPruning.SeatsRun` | pi-claude-channel/server.ts:434-469 | The stored client sets are exactly the sockets opened and not closed since, read off the trace. |
| `BrokerPruning.IdleFromIsIdleSince` | pi-claude-channel/server.ts:458-469 | The step-by-step record of a session's last departure agrees with its definition over the whole trace. |
| `BrokerPruning.IdleRun` | pi-claude-channel/server.ts:444-466 | The disconnect map holds exactly the idle sessions, with the time their last client left. |
| `BrokerPruning.PruneExactly` | pi-claude-channel/server.ts:626-636 | The tick prunes a session if and only if its last client left more than 30 minutes ago, none has connected since and no earlier tick took it. |
| `BrokerPruning.CacheSinceLastPruning` | pi-claude-channel/server.ts:61-65 | The cache of a session once pruned is its recorded broadcasts since its last pruning. |
| `BrokerPruning.HistoryLostOnlyWhenIdle` | pi-claude-channel/server.ts:631-636 | No step but such a tick ever takes anything from a cache. |
| `Permissions.PermissionDesk.constructor` | pi-claude-channel/server.ts:33-40 | No permission is pending at the start. |
| `Permissions.PermissionDesk.RequestPermission` | pi-claude-channel/server.ts:299-319 | A timer due 120 s later, and the request filed under its id whether or not one was filed there. |
| `Permissions.PermissionDesk.OnResponse` | pi-claude-channel/server.ts:389-400 | The request filed under the id is answered and its timer cleared; with none filed nothing changes. |
| `Permissions.PermissionDesk.OnTimeout` | pi-claude-channel/server.ts:302-305 | Drops whatever is filed under the id and rejects this request. |
| `Permissions.ValidRun` | pi-claude-channel/server.ts:277-320 | In every run each request is settled once with no timer left, or unsettled with its timer armed; what is filed is unsettled and has that id. |
| `Permissions.TimersKeepDeadlines` | pi-claude-channel/server.ts:302-305 | Every unsettled request still has its own timer, due 120 s after it was made. |
| `Permissions.SettlesOnceByDeadline` | pi-claude-channel/server.ts:299-319 | Each request settles exactly once and by its deadline, reused ids included. |
| `Permissions.PendingIsOnFile` | pi-claude-channel/server.ts:306-318 | The pending map holds exactly the requests whose id nothing has since reused, answered or timed out. |
| `Permissions.ResponseAnswersOnFile` | pi-claude-channel/server.ts:394-398 | A response settles a given request if and only if that one is on file. |
| `Permissions.FirstResponseWins` | pi-claude-channel/server.ts:389-400 | With the id used once, the first response before the deadline is the verdict delivered. |
| `Permissions.ReusedIdLosesTheAnswer` | pi-claude-channel/server.ts:302-306 | With an id used twice, the older timer drops the newer entry and its answer is lost. |
| `SessionLog.ParseItems` | scripts/e2a-crash/analysis.ts:217-227 | The inner loop takes the tokens of one assistant message into the pending run. |
| `SessionLog.ParseRawSessionJsonl` | scripts/e2a-crash/analysis.ts:179-232 | The parser computes the records of the log, and throws exactly when a line is the bare word null. |
| `SessionLog.MakersExact` | scripts/e2a-crash/analysis.ts:190-230 | The chosen positions are exactly those of user, tool-result and tool-call tokens and of the last text token of each run. |
| `SessionLog.HoldsAll` | scripts/e2a-crash/analysis.ts:183-230 | At every point the records so far are those of the closed runs, and the pending flag and time are those of the open one. |
| `SessionLog.ParserStructure` | scripts/e2a-crash/analysis.ts:179-232 | Record k has index k and comes from the k-th such token, in file order: one record per user message, tool result and tool call, one per maximal run of text, with the run's last time. |
| `SessionLabels.TokensPerLine` | scripts/e2a-crash/analysis.ts:190-215 | What each kind of line but an assistant message adds to the tokens. |
| `SessionLabels.TokensPerItem` | scripts/e2a-crash/analysis.ts:217-227 | What each item of an assistant message adds. |
| `SessionLabels.DigitsAreDecimal` | scripts/e2a-crash/analysis.ts:185-213 | The number in a label is the decimal numeral: right digits, no leading zero. |
| `SessionLabels.RecordsAreLabelled` | scripts/e2a-crash/analysis.ts:179-232 | Number, kind, tool, call id, time and label of every record, in literal text, by the token that made it. |
| `SessionLabels.LabelsAgreeExactly` | scripts/e2a-crash/analysis.ts:185-222 | Two labels agree if and only if they are of two texts or two user turns with one number, or of two calls of one kind whose names and ids read alike. |
| `SessionLabels.NamesWithoutColons` | scripts/e2a-crash/analysis.ts:205-222 | Without a colon in the names that means the same name and the same id. |
| `SessionLabels.ColonsConfuseCalls` | scripts/e2a-crash/analysis.ts:222-222 | The failing input: with colons two different calls have one label, and the diff misses the loss. |
| `SessionLabels.DiffComparesTokens` | scripts/e2a-crash/analysis.ts:252-255 | Over two logs: records number k agree if and only if the tokens that made them are labelled alike. |
| `SessionLabels.DifferentCallsAreLost` | scripts/e2a-crash/analysis.ts:205-271 | Two logs of one call each are diffed as one lost and one new exactly when the calls differ in name or id. |
| `SessionLabels.RecordsPerKind` | scripts/e2a-crash/analysis.ts:197-222 | Of every kind but assistant a log has one record per message, result or call of that kind. |
| `SessionLabels.AssistantRecordPerRun` | scripts/e2a-crash/analysis.ts:183-230 | ... and of the kind assistant one per maximal run of text and thinking, however many messages it spans. |
| `TranscriptDiff.CountKinds` | scripts/e2a-crash/analysis.ts:260-261 | The counting loop computes the per-kind table. |
| `TranscriptDiff.DiffTranscriptSnapshots` | scripts/e2a-crash/analysis.ts:252-271 | The loop stops at the longest common prefix; the rest is lost, respectively new. |
| `TranscriptDiff.RetainedIsMaximal` | scripts/e2a-crash/analysis.ts:253-255 | Retained is the greatest length up to which the snapshots agree label by label. |
| `TranscriptDiff.DiffSwaps` | scripts/e2a-crash/analysis.ts:252-271 | Swapping the snapshots swaps lost and new, counts and tables. |
| `TranscriptDiff.RetainedUltrametric` | scripts/e2a-crash/analysis.ts:253-255 | Over three snapshots, retained(a, c) is at least the smaller of the other two. |
| `TranscriptDiff.KindsExact` | scripts/e2a-crash/analysis.ts:260-261 | The table counts each kind exactly, lists no other, and sums to the number of records. |
| `TranscriptDiff.ToolCallsExact` | scripts/e2a-crash/analysis.ts:269-269 | The calls listed are the records of that kind, each after those before it. |
| `TranscriptDiff.DiffInFull` | scripts/e2a-crash/analysis.ts:252-271 | Every field of the diff by records lost and gained, with the first 5 labels and the first 50 calls. |
| `TranscriptDiff.DiffAccountsForEveryRecord` | scripts/e2a-crash/analysis.ts:262-270 | Retained plus lost and retained plus new are the two lengths, and the tables sum to lost and new. |
| `TranscriptDiff.GrowthKeepsRecords` | scripts/e2a-crash/analysis.ts:179-232 | Appending lines keeps every closed record and every label, also of a run that was still open. |
| `TranscriptDiff.AppendLosesNothing` | scripts/e2a-crash/analysis.ts:179-271 | Append-only means zero loss, for all logs: nothing lost, all retained, the difference new. |
| `TranscriptDiff.TornTailLosesNothing` | scripts/e2a-crash/analysis.ts:192-196 | Nor does a torn last line, whatever line it becomes once whole. |
| `RestartEvidence.FirstWorkingAfterReadiness` | scripts/e2a-crash/analysis.ts:282-293 | The loop computes the earliest qualifying time, and working means there is one. |
| `RestartEvidence.FirstAtIsMinimum` | scripts/e2a-crash/analysis.ts:282-293 | None is reported exactly when no event qualifies; else it is the minimum qualifying time. |
| `RestartEvidence.WorkingAfterGrowth` | scripts/e2a-crash/analysis.ts:282-293 | Growth splits the question: a grown log shows work exactly when a closed record qualifies or a later one does. |
| `RestartEvidence.FirstTimeIsFixed` | scripts/e2a-crash/analysis.ts:282-293 | With nondecreasing times, once a closed record qualifies the reported time never changes. |
| `RestartEvidence.WorkingIsStable` | scripts/e2a-crash/analysis.ts:179-293 | With nondecreasing times, growing the log never turns working into not working. |
| `RestartEvidence.UntimedTextStopsTheClock` | scripts/e2a-crash/analysis.ts:223-226 | Without a time on every message it can: text continuing the open run takes its time away. |
| `RestartEvidence.WorkingForGoodExactly` | scripts/e2a-crash/analysis.ts:179-293 | With times or without, a log shows work whatever is appended to it if and only if a closed record, one before the open run, qualifies. |
| `RestartEvidence.FirstTimeFixedExactly` | scripts/e2a-crash/analysis.ts:179-293 | Among logs with nondecreasing times, the reported time stays the same whatever is appended if and only if a closed record qualifies. |
| `CrashRows.ChildPidsExact` | scripts/e2a-crash/analysis.ts:449-449 | The keys of the map are the distinct non-server pids. |
| `CrashRows.OrphansAndGonePartition` | scripts/e2a-crash/analysis.ts:444-458 | Orphan and gone pids partition the distinct non-server pids of the first snapshot, each named once, and the count is right. |
| `CrashRows.LossesFitInTurns` | scripts/e2a-crash/analysis.ts:476-484 | In every row edits lost plus tool results lost is at most turns lost. |
| `CrashRows.EditsLostExactly` | scripts/e2a-crash/analysis.ts:476-478 | editsLost is exact if and only if no edit call comes after the first 50 tool calls lost, so always up to 50; else it is too low. |
| `CrashRows.FiftyFirstEditUncounted` | scripts/e2a-crash/analysis.ts:269-269 | The failing input: of more than 50 edit calls lost not all are counted. |
| `CrashRows.EditExactly` | scripts/e2a-crash/analysis.ts:118-118 | An edit call is one named edit, write, read, multiedit or writefile, in any case. |
| `CrashRows.RowInFull` | scripts/e2a-crash/analysis.ts:476-486 | Every counted field of a row by the records lost and gained. |
| `CrashRows.TotalsOfConcatenation` | scripts/e2a-crash/analysis.ts:507-521 | Totals of two batches add, but for buildRuns, which is the larger, and orphans, counted once across both. |
| `CrashRows.TotalsOfOneRow` | scripts/e2a-crash/analysis.ts:507-521 | The totals of no row and of one row, which with the law above fix them for every report. |
| `CrashRows.OrphansCountedOnce` | scripts/e2a-crash/analysis.ts:508-517 | The orphans of the totals are the pids in any row, each once. |
| `Mailbox.BurstClient.constructor` | scripts/e2a-soak/h1-burst.ts:85-88 | Inbox and waiters start empty. |
| `Mailbox.BurstClient.OnMessage` | scripts/e2a-soak/h1-burst.ts:96-108 | A parsed message goes to the first waiter that wants it, whose timer is cleared, else to the end of the inbox; others are counted only. |
| `Mailbox.BurstClient.CallWaitFor` | scripts/e2a-soak/h1-burst.ts:116-127 | The first matching inbox message is taken, else the caller waits with a timer. |
| `Mailbox.BurstClient.OnTimeout` | scripts/e2a-soak/h1-burst.ts:120-124 | The waiter leaves the list and is rejected. |
| `Mailbox.ValidRun` | scripts/e2a-soak/h1-burst.ts:84-127 | In every run messages and calls are conserved, no inbox message is wanted by a waiter, and timers are armed exactly for those waiting. |
| `Mailbox.EveryMessageAndCallOnce` | scripts/e2a-soak/h1-burst.ts:96-127 | Every parsed message is in the inbox or was handed to exactly one waiter that wanted it; every call waits, was answered once or was rejected once. |
| `Mailbox.WaitForTakesEarliest` | scripts/e2a-soak/h1-burst.ts:116-118 | waitFor takes the earliest unconsumed match, and waits only if there is none. |
| `Mailbox.ArrivalWakesLongestWaiting` | scripts/e2a-soak/h1-burst.ts:100-107 | An arriving message goes to the longest-waiting waiter that wants it, to the inbox only if nobody does. |
| `Mailbox.TimeoutOnlyWithoutMatch` | scripts/e2a-soak/h1-burst.ts:120-124 | A wait times out only if no unconsumed message would have answered it. |
| `TypeClosure.WordsExact` | scripts/generate-client-snapshot.ts:318-319 | The tokens of a field are exactly its maximal runs of word characters. |
| `TypeClosure.AllWordsExact` | scripts/generate-client-snapshot.ts:317-319 | The tokens of an interface are the words of all its fields, and no others. |
| `TypeClosure.LinksExactly` | scripts/generate-client-snapshot.ts:313-321 | A name mentions another exactly when, not overridden, its first interface has a field with the other, a declared name, as a word. |
| `TypeClosure.EntryExactly` | scripts/generate-client-snapshot.ts:309-328 | The entry of a name: its override, else its first interface by file order, else its first alias. |
| `TypeClosure.QueueWords` | scripts/generate-client-snapshot.ts:317-321 | Every declared token not seen is queued, and no other token. |
| `TypeClosure.ExtractTypes` | scripts/generate-client-snapshot.ts:299-333 | Terminates; fails exactly when some root is neither overridden nor declared, naming such a root; else has an entry for exactly the names reachable from the roots, each from its first declaration. |
| `TypeClosure.RootOrderIrrelevant` | scripts/generate-client-snapshot.ts:301-301 | Reachability depends on the roots as a set. |
| `TypeClosure.ClosureIsUnique` | scripts/generate-client-snapshot.ts:299-333 | So does the whole result, whatever the order of the roots. |
| `StreamOracle.ContainsDoubledPrefix` | scripts/e2a-rerun/oracle_lib.py:29-35 | Finds whether some opening of the reply, of 1 to 64 characters, occurs twice in a row. |
| `StreamOracle.CheckSample` | scripts/e2a-rerun/oracle_lib.py:98-114 | The first fault of one sample: bubble by bubble, then the split render. |
| `StreamOracle.Hb2StreamVerdict` | scripts/e2a-rerun/oracle_lib.py:85-130 | The whole verdict with its reason, sample by sample. |
| `StreamReading.StripExactly` | scripts/e2a-rerun/oracle_lib.py:85-90 | strip() is what lies between the first and the last character that is no white space. |
| `StreamReading.ContainsExactly` | scripts/e2a-rerun/oracle_lib.py:95-95 | A bubble contains the reply exactly when the reply stands somewhere in it. |
| `StreamReading.RepeatedExactly` | scripts/e2a-rerun/oracle_lib.py:102-102 | The reply is repeated exactly when two copies stand in the bubble that do not overlap. |
| `StreamReading.DoubledExactly` | scripts/e2a-rerun/oracle_lib.py:29-35 | An opening is doubled exactly when 1 to 64 characters of the reply stand right before themselves again. |
| `StreamReading.OpeningsExactly` | scripts/e2a-rerun/oracle_lib.py:88-90 | A bubble counts as growing exactly when, trimmed, it is at least 4 characters of the reply's start and not all of it. |
| `StreamReading.SplitExactly` | scripts/e2a-rerun/oracle_lib.py:105-114 | The reply is split exactly when two bubbles are openings of it, or one is, one holds it whole and two are not empty. |
| `StreamReading.VerdictExactly` | scripts/e2a-rerun/oracle_lib.py:85-130 | The verdict in full, in characters and places: missing text, faults, growth not seen live, reply not seen whole, or clean. |
| `StreamReading.FaultReason` | scripts/e2a-rerun/oracle_lib.py:98-114 | The reason given is that of the first fault of the first sample at fault. |
| `StreamReading.SettledRunsFail` | scripts/e2a-rerun/oracle_lib.py:119-127 | A run of settled samples never passes. |
| `StreamReading.ShortOrWholeFails` | scripts/e2a-rerun/oracle_lib.py:88-127 | Nor does one whose live bubbles show at most 3 characters or the whole trimmed reply. |
| `StreamOracle.CountSeesTwo` | scripts/e2a-rerun/oracle_lib.py:102-102 | The count exceeds one exactly when two copies occur that do not overlap. |
| `StreamOracle.AcceptedExactly` | scripts/e2a-rerun/oracle_lib.py:85-130 | A run passes exactly when every bubble of every sample is clean, no sample splits the reply, it was seen growing live, and seen whole. |
| `StreamOracle.DuplicationIsRejected` | scripts/e2a-rerun/oracle_lib.py:98-104 | Soundness: a bubble with an opening of at most 64 characters right before the reply, or with two copies of the reply, is rejected wherever seen. |
| `StreamOracle.GrowingReplyPassesExactly` | scripts/e2a-rerun/oracle_lib.py:85-130 | Completeness: beside older bubbles of the chat that are foreign to it, a reply growing in one bubble passes if and only if it was seen growing live and seen whole, no opening of it stands twice in a row in it or in an older bubble, and it is trimmed or alone. |
| `StreamOracle.RenderedOnceAcceptedExactly` | scripts/e2a-rerun/oracle_lib.py:85-130 | A reply so rendered and observed beside any older bubbles is accepted if and only if none of these holds the reply or is a part of it, no opening of the reply stands twice in a row in it or in them, and it is trimmed or alone. |
| `StreamOracle.OlderBubbleFailsReply` | scripts/e2a-rerun/oracle_lib.py:98-101 | The failing input: "lorem" growing beside an older "hello" is rejected, and accepted without it. |
| `StreamOracle.WholeReplyIsNotStreaming` | scripts/e2a-rerun/oracle_lib.py:115-127 | A trimmed reply only ever seen whole does not pass, against the clause after OR in the docstring. |
| `StreamOracle.LongOpeningEscapes` | scripts/e2a-rerun/oracle_lib.py:31-31 | The bound is tight: for every length above 64 some reply can show its opening of that length twice and pass. |
| `StreamOracle.CaughtExactlyUpTo64` | scripts/e2a-rerun/oracle_lib.py:31-31 | Openings of a given length are caught in every reply if and only if the length is at most 64. |
| `Inspector.InspectorClient.constructor` | scripts/heap-soak/inspector.ts:61-67 | Number 1 comes first and nothing is pending. |
| `Inspector.InspectorClient.OpenSocket` | scripts/heap-soak/inspector.ts:88-90 | From here on the client has a socket. |
| `Inspector.InspectorClient.Send` | scripts/heap-soak/inspector.ts:127-143 | Without a socket it throws, after close it is refused at once, else the request gets the next number, a timer and an entry. |
| `Inspector.InspectorClient.HandleMessage` | scripts/heap-soak/inspector.ts:112-125 | Only a reply with the number of a pending request settles it; chunks and unknown numbers change nothing. |
| `Inspector.InspectorClient.OnTimeout` | scripts/heap-soak/inspector.ts:133-136 | The request is rejected and forgotten. |
| `Inspector.InspectorClient.RejectAllPending` | scripts/heap-soak/inspector.ts:107-110 | The loop rejects every pending request once, in insertion order. |
| `Inspector.InspectorClient.OnClose` | scripts/heap-soak/inspector.ts:97-100 | Marks the client closed and rejects all pending. |
| `Inspector.InspectorClient.OnError` | scripts/heap-soak/inspector.ts:101-103 | Rejects all pending and leaves the client open. |
| `Inspector.RunAgrees` | scripts/heap-soak/inspector.ts:60-143 | In every run the client's state is what the trace alone says: what was issued, what is unanswered and each outcome. |
| `Inspector.EveryRequestSettlesOnce` | scripts/heap-soak/inspector.ts:93-143 | Each request settles exactly once, with the first of the response with its number, its timeout, or the loss of the connection; until then it is pending with its timer armed; nothing else ever settles. |
| `Inspector.FateIsFinal` | scripts/heap-soak/inspector.ts:119-124 | A settled request keeps its one outcome: late responses change nothing. |
| `Inspector.NumbersAreNeverReused` | scripts/heap-soak/inspector.ts:131-131 | After a send its number is never given again. |
| `Inspector.SendIssues` | scripts/heap-soak/inspector.ts:127-143 | Over runs: a send on an open connection takes the next number, the first being 1, and waits with its timer armed. |
| `Inspector.ReplySettles` | scripts/heap-soak/inspector.ts:119-124 | Over runs: the reply to a pending request settles it alone, rejected with its error text if it has one, else resolved with its result. |
| `Inspector.OtherMessagesIgnored` | scripts/heap-soak/inspector.ts:112-121 | Over runs: any other message changes nothing. |
| `Inspector.LossRejects` | scripts/heap-soak/inspector.ts:97-136 | Over runs: a timeout rejects its request; a close or an error rejects all pending, in the order sent, each with its reason. |
| `Inspector.ClosedForGood` | scripts/heap-soak/inspector.ts:97-130 | After the close event nothing is pending or settled again, and every send is refused at once. |
| `ChildTracking.ComputeOpenSessionIds` | server/src/live-validation/heap-soak/orphans.ts:9-23 | The ids created and not deleted in the event log, in the order of creation. |
| `ChildTracking.NoEmptyIdCreated` | server/src/live-validation/heap-soak/orphans.ts:13-16 | The order lists exactly the created ids that are not empty. |
| `ChildTracking.LogTellsTrace` | server/src/live-validation/heap-soak/orphans.ts:9-23 | Over runs: a session is logged created exactly when a create returned it, logged deleted exactly when the server confirmed it gone, and open in between. |
| `ChildTracking.StepsInFull` | scripts/heap-soak/driver.ts:127-185 | What each of the other steps logs, and that a sweep takes up the open sessions not in flight. |
| `ChildTracking.ChildDriver.constructor` | scripts/heap-soak/driver.ts:85-89 | All sets start empty. |
| `ChildTracking.ChildDriver.Dispatch` | scripts/heap-soak/driver.ts:110-120 | The token is registered before the create is awaited. |
| `ChildTracking.ChildDriver.OnCreated` | scripts/heap-soak/driver.ts:145-148 | The token is exchanged for the session id in one step. |
| `ChildTracking.ChildDriver.OnCreateFailed` | scripts/heap-soak/driver.ts:172-178 | The failure is logged and the token dropped. |
| `ChildTracking.ChildDriver.OnFinished` | scripts/heap-soak/driver.ts:161-181 | A failure is logged by its kind; the session id leaves inFlight unless it is empty. |
| `ChildTracking.ChildDriver.OnDeleteDone` | scripts/heap-soak/driver.ts:180-183 | Only a delete that succeeded is logged. |
| `ChildTracking.ChildDriver.OnDeadline` | scripts/heap-soak/driver.ts:196-203 | Losing the race changes no tracking set. |
| `ChildTracking.ChildDriver.StartSweep` | scripts/heap-soak/orphan-sweep.ts:105-106 | The open sessions are split into those in flight, skipped, and the rest, each once. |
| `ChildTracking.ChildDriver.OnSweepDelete` | scripts/heap-soak/orphan-sweep.ts:113-130 | Only a confirmed deletion or not-found ends a session in the log; a transient failure leaves it open. |
| `ChildTracking.ValidRun` | scripts/heap-soak/driver.ts:104-186 | With fresh ids, in every interleaving the two sets are exactly the tokens of unanswered creates and the sessions of running children, and swept or sweepable sessions are apart from them. |
| `ChildTracking.CountedExactlyOnce` | scripts/heap-soak/driver.ts:104-186 | A child between registration and its finally block is counted once, by its token before the create resolves and by its session id after, never both and never neither, also after losing the deadline race. |
| `ChildTracking.CountsUnfinishedChildren` | scripts/heap-soak/driver.ts:69-83 | The sizes of the two sets add up to the number of unfinished children, and one more once a child with the empty id is done; both are empty exactly when none is left and no empty id was. |
| `ChildTracking.DrainIsTruthful` | server/src/live-validation/heap-soak/end-drain.ts:47-60 | The drain reports the load gone if and only if every child is past its body, no id was empty and every session created is logged deleted; then the server confirmed each one gone. |
| `ChildTracking.SweepNeverBlamed` | scripts/heap-soak/driver.ts:127-137 | No failing child is ever put down to the sweep: the safety net never fires. |
| `ChildTracking.GapStepExactly` | scripts/heap-soak/driver.ts:145-181 | Whatever ids come back: when every unfinished child is seen, all are seen after a step if and only if it drops no token another create waits under and no session id another child runs with. |
| `ChildTracking.SeenThroughoutExactly` | scripts/heap-soak/driver.ts:104-186 | Over a run every unfinished child is seen throughout if and only if no step does so. |
| `ChildTracking.NoGapMakesDrainSafe` | server/src/live-validation/heap-soak/end-drain.ts:47-60 | In such a run the drain reports the load gone only when every child is past its body, fresh ids or not. |
| `ChildTracking.FreshIdsOpenNoGap` | scripts/heap-soak/driver.ts:110-147 | Fresh ids never open a gap. |
| `ChildTracking.SharedTokenOpensAGap` | scripts/heap-soak/driver.ts:145-177 | With one token drawn twice, an unanswered create goes unseen by the drain, by the other create resolving or by the second delete in the finally block. |
| `ChildTracking.SharedSessionOpensAGap` | scripts/heap-soak/driver.ts:145-147 | With one session id returned twice, a running child does. |
| `Wave.BackboneOf` | server/src/live-validation/heap-soak/lanes.ts:106-110 | The first backbone lane, or none exactly when there is none. |
| `Wave.PickBackbone` | server/src/live-validation/heap-soak/lanes.ts:106-110 | The search finds that lane. |
| `Wave.StartWave` | scripts/heap-soak/driver.ts:219-228 | Without a backbone lane the wave throws; else it starts with the first one as its backbone. |
| `Wave.WaveRun.constructor` | scripts/heap-soak/driver.ts:224-228 | Nothing attempted or completed at the start. |
| `Wave.WaveRun.Dispatch` | scripts/heap-soak/driver.ts:232-238 | One attempt more on the lane, unsettled. |
| `Wave.WaveRun.OnTick` | scripts/heap-soak/driver.ts:249-256 | Dispatches only a lane below its cap; when the time is up or the run stopped, fixes the shortfall. |
| `Wave.WaveRun.OnSettled` | scripts/heap-soak/driver.ts:239-244 | The attempt is settled; a success counts as completed. |
| `Wave.WaveRun.OnTopUp` | scripts/heap-soak/driver.ts:263-276 | Starts the next top-up, or returns with the anomaly flag. |
| `Wave.WaveRun.OnTopUpDone` | scripts/heap-soak/driver.ts:265-272 | A successful top-up counts on the backbone lane; a throw rejects the wave. |
| `Wave.ValidRun` | scripts/heap-soak/driver.ts:219-277 | The accounts balance lane by lane and the top-up is on course, in every interleaving. |
| `Wave.AttemptsAccountedFor` | scripts/heap-soak/driver.ts:230-256 | Per lane, attempts are settled or unsettled, unsettled ones keep maxConcurrent, completed is at most attempted, plus top-ups on the backbone; a paused backbone is never dispatched. |
| `Wave.CompletionsConserved` | scripts/heap-soak/driver.ts:239-273 | All completions together are the successful attempts and the successful top-ups. |
| `Wave.ToppedUpWithinShortfall` | scripts/heap-soak/driver.ts:261-273 | The shortfall is what the target lacked when the dispatch loop ended, whatever settles later, and top-ups never exceed it. |
| `Wave.TargetMetButForFailures` | server/src/live-validation/heap-soak/wave-target.ts:17-30 | A wave whose top-up was not stopped misses its target by no more than the top-ups that failed. |
| `Wave.TargetMetExactly` | scripts/heap-soak/driver.ts:261-276 | A wave that has returned, stopped or not, meets its target, then or later, if and only if at least as many attempts succeeded after the dispatch loop ended as the top-ups left of the shortfall. |
| `Wave.StoppedOrFailedTopUpMisses` | scripts/heap-soak/driver.ts:263-273 | The failing inputs: a stopped top-up, with none failed, and a failed one each miss the target. |
| `Wave.AnomalyExactly` | server/src/live-validation/heap-soak/wave-target.ts:37-50 | The anomaly is reported exactly when the target is missed with no success of the backbone at all; unless stopped, every top-up was then tried and failed, and there was one. |
| `Wave.LateSuccessBeliesAnomaly` | scripts/heap-soak/driver.ts:239-244 | The returned result is live: a straggler can still bring a wave reported down to its target. |
| `Wave.DownForGoodExactly` | scripts/heap-soak/driver.ts:239-276 | The result stays one with its backbone down, whatever settles later, if and only if the backbone delivered nothing and has nothing out, and all that is out on the other lanes cannot reach the target. |
| `Wave.ReportedFlagStaysTrueExactly` | scripts/heap-soak/driver.ts:275-276 | The reported flag is true of the live result ever after if and only if it was not set or the backbone is down for good at the return. |
| `Reconnect.BrowserLikeWsClient.constructor` | scripts/heap-soak/browser-ws-client.ts:71-73 | Not closed, backoff at its base. |
| `Reconnect.BrowserLikeWsClient.BeginConnect` | scripts/heap-soak/browser-ws-client.ts:75-80 | A login starts unless the client is closed. |
| `Reconnect.BrowserLikeWsClient.Reschedule` | scripts/heap-soak/browser-ws-client.ts:109-118 | One timer at a time, none after close, the backoff doubled up to the cap. |
| `Reconnect.BrowserLikeWsClient.OnLoginOk` | scripts/heap-soak/browser-ws-client.ts:82-87 | Makes the socket, whatever happened during the login. |
| `Reconnect.BrowserLikeWsClient.OnLoginFail` | scripts/heap-soak/browser-ws-client.ts:103-106 | Schedules a reconnect. |
| `Reconnect.BrowserLikeWsClient.OnSocketOpen` | scripts/heap-soak/browser-ws-client.ts:88-93 | Counts the connection and resets the backoff. |
| `Reconnect.BrowserLikeWsClient.OnSocketClose` | scripts/heap-soak/browser-ws-client.ts:95-99 | Schedules a reconnect. |
| `Reconnect.BrowserLikeWsClient.OnTimer` | scripts/heap-soak/browser-ws-client.ts:113-116 | Forgets the handle and connects. |
| `Reconnect.BrowserLikeWsClient.Close` | scripts/heap-soak/browser-ws-client.ts:124-128 | Clears the timer if its handle is set and closes the current socket. |
| `Reconnect.ValidRun` | scripts/heap-soak/browser-ws-client.ts:71-128 | In every run nothing in hand is duplicated, and while not closed it is never all lost. |
| `Reconnect.InHandWithinStarts` | scripts/heap-soak/browser-ws-client.ts:71-128 | Logins, sockets and armed timers together never exceed the starts made before close(), and never vanish until then; connectCount is at most reconnectCount plus those starts; once closed no timer is armed. |
| `Reconnect.OneConnectionAtATime` | scripts/heap-soak/browser-ws-client.ts:71-128 | There is at most one login, socket or armed timer at any time of a run if and only if the client was started at most once before close(). |
| `Reconnect.TwoStartsTwoSockets` | scripts/heap-soak/browser-ws-client.ts:75-77 | Two starts can hold two sockets. |
| `Reconnect.BackoffLaw` | scripts/heap-soak/browser-ws-client.ts:109-118 | Every delay ever armed follows the law, counted from the last opening before it. |
| `Reconnect.CountersCountHistory` | scripts/heap-soak/browser-ws-client.ts:90-111 | The two counters count exactly the connections opened and the timers armed. |
| `Reconnect.CapHoldsFromTheFirst` | scripts/heap-soak/browser-ws-client.ts:117-117 | The k-th delay is min(base * 2^k, max) for every k if and only if base is at most max; else only the first is above the cap. |
| `Reconnect.CloseIsFinalExactly` | scripts/heap-soak/browser-ws-client.ts:79-128 | No connection ever opens after close() if and only if no login was in flight then and every socket still connecting was told to close or is the current one. |
| `Reconnect.CloseEndsAllExactly` | scripts/heap-soak/browser-ws-client.ts:79-128 | At any time after close() every live socket has been told to close, if and only if no login was in flight then and every live socket had been told or is the current one. |
| `Reconnect.OneStartHoldsItsSocket` | scripts/heap-soak/browser-ws-client.ts:79-128 | Started at most once before close(), the current socket is the only live one, so close() is final unless a login was in flight. |
| `Reconnect.LoginOutlivesClose` | scripts/heap-soak/browser-ws-client.ts:80-88 | Such a login opens a socket that nobody told to close. |
| `Reconnect.ConnectedTellsTheTruth` | scripts/heap-soak/browser-ws-client.ts:88-99 | Throughout a run connected is true exactly while a socket is open, if and only if no socket ever drops while another is open; after at most one start before close() none does. |
| `Reconnect.ConnectedLies` | scripts/heap-soak/browser-ws-client.ts:95-98 | The failing input: of two open sockets one drops, and the flag says none is open. |
| `ArgParser.ParseArgs` | scripts/audio-lab/cli.ts:60-91 | The loop with its lookahead reads the command line as its items from the left. |
| `ArgParser.SplitAtEquals` | scripts/audio-lab/cli.ts:71-74 | A key without = is split from its value at the first =. |
| `ArgParser.ReadsBack` | scripts/audio-lab/cli.ts:64-89 | Reading printed items gives them back, each = value cut at its first =, when no bare flag precedes a positional. |
| `ArgParser.SwallowingLosesPositionals` | scripts/audio-lab/cli.ts:82-85 | Each bare flag that could take a value and stands before a positional costs one positional. |
| `ArgParser.RoundTripExactly` | scripts/audio-lab/cli.ts:60-91 | Printing distinct flags and positionals in any order and parsing gives back flags and positionals if and only if no such flag stands before a positional and no = value holds another =. |
| `ArgParser.BareFlagSwallowsPositional` | scripts/audio-lab/cli.ts:82-85 | The failing input: a bare flag that could take a value, before a positional, does not survive the round trip. |
| `ArgParser.EveryFlagReadBack` | scripts/audio-lab/cli.ts:60-91 | The parsed line then holds each flag with its value, no other flag, and all positionals. |

## Left out

- Sockets, HTTP, MCP transport, timers' clocks, the file system and process listings: they appear only as steps and parameters. `ws.send` is taken not to throw, and a socket told to close before it opened is taken never to open.
- JSON text: a line or message is unparsable or an already decoded value, and objects are maps without key order, so duplicate and prototype-named keys are not represented.
- Broker tool calls without an arguments object, unknown tools and hooks, and malformed messages: they change nothing and are the step `Ignored`. A call or hook without a session id is not part of this model; the source files its events under the key `undefined`, as one more session. Limits are integers. `sessionModels` and `sessionLastToolName` are pinned by the method contracts only; no theorem over runs speaks of them.
- Broker events are told apart by the session handed to broadcast, not by payload fields, which send_event may override.
- Mailbox predicates are total and pure.
- TypeClosure keeps fields and aliases as printed text: the TypeScript compiler, `printTypeNode`, `fieldsOfMembers` and `describeZod` are not part of this model.
- The rows of the crash report carry only the counted fields; `parseTranscriptEvents`, `detectInFlightToolCall`, `classifyWindowEnd`, the duplicate and watch summaries are left out as easy or as plain field copying. Timestamps are integers.
- `hb2_combined_verdict`, `classify_bubble` and the transcript helpers of the oracle are single expressions.
- Inspector: chunk listeners, snapshot files and `connect`'s retry loop; deadlines are not measured, a timeout may fire whenever its timer is armed.
- ChildTracking: prompts, watches and the sweep of untracked server sessions. Retries of one delete are one step.
- Wave: circuit breakers and the weights of `pickLane`, which is any choice among its candidates or none.
- Wave.AttemptsAccountedFor: bounds the unsettled attempts of one wave, as the code does; children still running behind a lost deadline, or from the wave before, are not counted by the code.
- Reconnect: message counts, time stamps and error texts of the statistics.
- The server's talker, watch and registry modules, voice and model validation scripts, launchers, gates, preflight and user interface.
