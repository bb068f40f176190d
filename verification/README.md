# Verified models of the repository's stateful cores

A Dafny model of the parts of the repository with the most state and branching, and proofs about them.
`dafny verify dfyconfig.toml` checks everything.

Every operation that updates state is a class method or a method with loops, proved against a function on values;
the theorems are about those functions, over all inputs, streams, cuttings or runs. The methods of the three services
also keep `Valid()`, the invariant that the theorems prove over every run; the backend's, unless a call is not orderly.

| modules | part of the system |
|---|---|
| MessageAdapter, KeyedStore, MessageTheorems, KeyedTheorems, StreamingTheorems | folding an agent's live events into the chat's message list |
| WebSocketModel, WebSocketService, WebSocketTheorems, WebSocketFieldTheorems | the mobile client's connection manager |
| BridgeModel, BridgeService, BridgeTheorems, BridgeSettlementTheorems, BridgeTrafficTheorems | requests and replies over that connection |
| BackendModel, BackendLifecycle, BackendTheorems, BackendRetryTheorems, BackendEventTheorems, HealthPoll | starting, watching, restarting and stopping the backend process |
| ChatStream, ChatStreamTheorems | two readers of a streamed completion (a subset of section 9.2.5 of the WHATWG HTML standard) |
| PeekRouter, PeekRouterTheorems | routing a TCP connection by its first bytes |
| Timeline, Grouping, GroupingTheorems, Listing | the grouped conversation history |
| BundleVerifier | the check of a packaged bundle |
| BuildScrub, BuildScrubTheorems | taking the build account's name out of a binary |
| GradleSigning, GradleSigningTheorems, GradleBlockTheorems, GradleRewriteTheorems, GradleOrderTheorems | the two edits of the Gradle build file |
| WecomFrame, WecomState, WecomStateTheorems | the WeCom channel's message frame and its records |
| LogPacker | shrinking logs until they fit |
| Wrappers, Json, Bytes, Numbers, Sequences, Text, Search | shared types and functions, JavaScript's white space, indexOf and split |

## How the environment appears

- Sockets, timers, processes, promises and the clock are events of a state machine: at any moment the environment may
  deliver any event that is enabled. A method runs from one await to the next.
- JSON parsing, the cipher with its base64, compression and the file system are function parameters; nothing is assumed
  of them but what a `requires` or a type says (decryption inverts encryption; compression yields no empty buffer).
- The WebSocket model keeps every socket ever made. A socket that has not reported its close may report anything, also
  when the service no longer holds it, and any send may throw.
- The backend model has one start in flight at a time and any number of processes. Its theorems about runs assume an
  orderly caller (start() when nothing is running or pending, stop() when no start is in flight) and that no process is
  spawned beside another. `StopIsFinalIff` says what a stop that races a start is worth.

## Where the code does not do what it says

- Backend: a restart count of more than three never happens. A backend that crashes after each healthy start is restarted
  without end, always after one second (`EveryCrashRestarts`, `RestartsUnlimited`).
- WebSocket: the close handler clears whichever socket is held. One `reconnect()` on a live connection is enough to lose
  the new socket when the old one reports its close (`ReconnectLosesItsSocket`, `SoleLiveKeptIff`, `AlwaysSoleIff`); a heartbeat that
  arrives after `disconnect()` connects again (`PingReconnectsIff`, and over all events and runs `QuietKeptIff`, `AlwaysQuietIff`).
- WeCom frame: a frame that is already a multiple of 32 bytes gets no padding, unlike section 6.3 of RFC 5652, and is cut
  or refused when opened (`RoundTripIff`, `AlignedIsCut`).
- Scrub: of a name that stands twice in a row, the second stays (`ScrubCleansIff`, `DoubledNameSurvives`).
- Gradle: the edit that is said to leave the debug build alone changes the first debug statement from the release block
  on, inside it or not (`PointKeepsToReleaseIff`, `DebugBlockIsEdited`), and then reports success although the release
  block is not pointed at its key (`PointsItsBlockIff`). Running the plugin on its own output changes it when the braces of
  a value do not balance (`RewriteTwiceIff`, `LoneBraceNeverSettles`), or may when the build types come first
  (`OtherOrderNeverSettles`).
- Message list: a first tool group keeps the callIds it repeats (`AlwaysOnceIff`, `CallIdsUniqueIff`); a tool group whose
  content is not an array replaces an array group before it (`AlwaysRefinesIff`, `RecordIsLost`).
- Router: an upgrade whose request line ends beyond the peek limit goes to the backend or to the internal server
  depending on how its bytes arrive (`CutFreeIff`, `LongQueryIsCut`).
- History: two timeline keys with one translation show conversations twice (`ConservesIff`, `UntranslatedIsShownTwice`); a conversation dated
  ahead of today is listed as far behind it, tomorrow's under yesterday (`FallsIff`, `AheadIsListedLate`).

## Model

| member | source | states |
|---|---|---|
| MessageAdapter.ComposeMessage | mobile/src/utils/messageAdapter.ts:170-280 | the reducer, branch by branch, refines the recursive specification Compose: keyed merges, streaming concatenation, the empty list and the absent message |
| MessageAdapter.OrderedMapOf | mobile/src/utils/messageAdapter.ts:178-179 | the map built from an update array: one entry a callId, later duplicates overriding, in order of first setting |
| MessageAdapter.MergeInto | mobile/src/utils/messageAdapter.ts:185-197 | the pass over one group: which tools are overlaid, which updates it uses up, and that it reports a merge exactly when the group may differ |
| MessageAdapter.MergeToolGroup | mobile/src/utils/messageAdapter.ts:177-204 | the pass over the whole list, updates consumed from left to right, the rest appended as one group, also where the code returns the old list early |
| MessageAdapter.MergeByKey | mobile/src/utils/messageAdapter.ts:207-255 | the four keyed searches: the first message of the same kind and key is overlaid in place, else the message is appended |
| MessageTheorems.ComposeKeepsIdentity | mobile/src/utils/messageAdapter.ts:170-280 | no message is dropped, reordered or given another id, kind or msg_id, and at most one is appended |
| MessageTheorems.FoldOnlyExtends | mobile/src/utils/messageAdapter.ts:170-280 | over any stream, the ids after n events are a prefix of the ids after all of them, and each further event adds at most one |
| MessageTheorems.ComposeAddsText | mobile/src/utils/messageAdapter.ts:257-279 | one event adds exactly its own text to the text of its msg_id, and none to any other |
| MessageTheorems.FoldConcatenatesText | mobile/src/utils/messageAdapter.ts:257-279 | over any stream, the text kept per msg_id is the concatenation of that id's chunks in arrival order, whatever else interleaves |
| MessageTheorems.FoldSeparatesText | mobile/src/utils/messageAdapter.ts:257-279 | no two neighbouring text messages share a msg_id |
| MessageTheorems.SquashIsLast | mobile/src/utils/messageAdapter.ts:178-179 | the update map holds each callId once, with its last record |
| MessageTheorems.MergeToolsGets | mobile/src/utils/messageAdapter.ts:185-197 | after a pass over one group, a callId's first record is overlaid with its update, later duplicates are not, and the update is gone from the map |
| MessageTheorems.MergeListLooksUp | mobile/src/utils/messageAdapter.ts:182-204 | the same over the whole list: only the first record in list order is overlaid, and the update is left over only if no record had its callId |
| MessageTheorems.ComposeFiles | mobile/src/utils/messageAdapter.ts:170-280 | for each callId, one event of any kind that erases none of its records files its update in the keyed store, and leaves it where the event has none |
| MessageTheorems.StepRefinesIff | mobile/src/utils/messageAdapter.ts:170-280 | one more event keeps the refinement for a callId exactly when it erases none of its records |
| MessageTheorems.AlwaysRefinesIff | mobile/src/utils/messageAdapter.ts:170-280 | for each callId, folding any stream refines the keyed store at every moment (once in the list, in the message where it first appeared, its record the field-by-field override of all its updates in order) exactly when the first message does not repeat it and no message erases records of it |
| MessageTheorems.FoldRefinesStore | mobile/src/utils/messageAdapter.ts:177-204 | in particular at the stream's end |
| MessageTheorems.ArraysEraseNothing | mobile/src/utils/messageAdapter.ts:177-204 | a stream whose tool groups all have array content erases nothing |
| MessageTheorems.ErasedIsLost | mobile/src/utils/messageAdapter.ts:257-279 | a tool group of other content, streamed over an array group of its msg_id, takes that group's records of a callId, of which there are some, out of the list |
| MessageTheorems.RecordIsLost | mobile/src/utils/messageAdapter.ts:257-279 | a concrete stream of two messages whose record is in the store and not in the list |
| MessageTheorems.HeadDuplicatesStay | mobile/src/utils/messageAdapter.ts:172-177 | the first message of a list is taken as it is, so a callId that it repeats stays repeated as long as nothing of it is erased |
| MessageTheorems.AlwaysOnceIff | mobile/src/utils/messageAdapter.ts:170-280 | over any stream, a callId occurs at most once at every moment exactly when the first message does not repeat it, whatever is erased |
| MessageTheorems.CallIdsUniqueIff | mobile/src/utils/messageAdapter.ts:172-204 | all callIds are unique at every moment of any stream exactly when its first message repeats none |
| MessageTheorems.GroupTwice | mobile/src/utils/messageAdapter.ts:177-204 | a tool group applied to a nonempty list twice is the same as once, duplicates or not |
| MessageTheorems.KeyedTwice | mobile/src/utils/messageAdapter.ts:207-255 | a tool call, agent tool call or plan applied twice is the same as once |
| MessageTheorems.TwiceIsOnceIff | mobile/src/utils/messageAdapter.ts:170-280 | for every message and list, twice equals once exactly when a text is empty and, for a tool group starting the list, the first record of each callId already has every field of its last |
| MessageTheorems.AbsorbsIff | mobile/src/utils/messageAdapter.ts:177-204 | merging an array of tools into itself changes nothing exactly under that condition on first and last records |
| MessageTheorems.DistinctAbsorbs | mobile/src/utils/messageAdapter.ts:177-204 | a tool group with distinct callIds meets that condition |
| StreamingTheorems.StreamedShows | mobile/src/utils/messageAdapter.ts:257-279 | a streamed message of any kind replaces what the last message of its kind and msg_id shows, under the old id, with createdAt, position and status where given; a text is joined; anything else is appended, and nothing before the last message changes |
| StreamingTheorems.RunIsShown | mobile/src/utils/messageAdapter.ts:257-279 | wherever in a stream an adjacent run of one kind and msg_id starts, the list gains one message for it: the id of its first event, the content of its last (of texts, all joined), and of the rest the latest given |
| StreamingTheorems.MergesTouchContents | mobile/src/utils/messageAdapter.ts:170-255 | a merged message changes contents alone: of array groups, or of at most one message of its kind |
| KeyedTheorems.ComposeFiles | mobile/src/utils/messageAdapter.ts:170-280 | one event of any kind changes the message kept under a kind and key only if it carries them, and then by overlaying or first filing it |
| KeyedTheorems.FoldRefinesKeyed | mobile/src/utils/messageAdapter.ts:207-255 | over any stream, each tool call, agent tool call and plan key has at most one message: the first that carried it, with the fields of all later ones overlaid in order |
| KeyedTheorems.KeyedUpdates | mobile/src/utils/messageAdapter.ts:207-255 | a tool call, agent tool call or plan overlays exactly the first message of its kind with the same callId, toolCallId, update.toolCallId or sessionId, and is appended without one |
| WebSocketService.WebSocketService.Configure | mobile/src/services/websocket.ts:55-59 | host, port and token change and nothing else; the invariant is kept |
| WebSocketService.WebSocketService.UpdateToken | mobile/src/services/websocket.ts:69-71 | the token changes and nothing else; the invariant is kept |
| WebSocketService.WebSocketService.Connect | mobile/src/services/websocket.ts:73-111 | the guards in order, the new socket or the retry when none can be built |
| WebSocketService.WebSocketService.Disconnect | mobile/src/services/websocket.ts:168-176 | nothing held, queued, scheduled or wanted any more |
| WebSocketService.WebSocketService.Reconnect | mobile/src/services/websocket.ts:197-202 | disconnect, then connect with the initial delay |
| WebSocketService.WebSocketService.Send | mobile/src/services/websocket.ts:178-195 | transmits on an open socket that takes it, else queues, and connects only without a socket or with a closed one |
| WebSocketService.WebSocketService.FlushQueue | mobile/src/services/websocket.ts:226-235 | the loop shifts messages out in order; if a send throws, the message already shifted is gone |
| WebSocketService.WebSocketService.ScheduleReconnect | mobile/src/services/websocket.ts:237-245 | one timer at a time, with the current delay, none when reconnecting is not wanted |
| WebSocketService.WebSocketService.ClearReconnectTimer | mobile/src/services/websocket.ts:247-252 | the platform no longer has the timer pending |
| WebSocketService.WebSocketService.StartDeadConnectionCheck | mobile/src/services/websocket.ts:254-262 | replaces the running interval |
| WebSocketService.WebSocketService.StopDeadConnectionCheck | mobile/src/services/websocket.ts:264-269 | the platform no longer runs the interval |
| WebSocketService.WebSocketService.CloseSocket | mobile/src/services/websocket.ts:163-165 | closing is only begun; the socket reports it later |
| WebSocketService.WebSocketService.FailAuth | mobile/src/services/websocket.ts:219-223 | what a failed recovery leaves |
| WebSocketService.WebSocketService.HandleAuthChallenge | mobile/src/services/websocket.ts:204-213 | the part up to the await, single flight |
| WebSocketService.WebSocketService.SettleAuthChallenge | mobile/src/services/websocket.ts:210-223 | the part after the await |
| WebSocketService.WebSocketService.Opened | mobile/src/services/websocket.ts:113-119 | what opening does to the fields: delay reset, check started, state set, the held socket flushed |
| WebSocketService.WebSocketService.OnOpen | mobile/src/services/websocket.ts:113-119 | whichever socket opened, that; the invariant is kept and the count of firings starts again |
| WebSocketService.WebSocketService.OnClose | mobile/src/services/websocket.ts:146-161 | whichever socket closed, the held one is forgotten |
| WebSocketService.WebSocketService.FireReconnectTimer | mobile/src/services/websocket.ts:240-244 | the delay doubles up to 8000 ms and connecting is tried |
| WebSocketService.WebSocketService.FireDeadCheck | mobile/src/services/websocket.ts:256-261 | a stale connection's socket is closed |
| WebSocketTheorems.StepKeeps | mobile/src/services/websocket.ts:73-269 | every call, timer, socket event and auth result keeps the invariant, the record of what was sent and the count of timer firings |
| WebSocketTheorems.RunKeeps | mobile/src/services/websocket.ts:73-269 | the invariant holds after every run, with any number of sockets, stale events and sends that throw |
| WebSocketTheorems.FlushKeeps | mobile/src/services/websocket.ts:226-235 | a flush moves messages from the queue to the wire in order and loses none unless a send throws, then exactly one |
| WebSocketTheorems.DeliveredInOrder | mobile/src/services/websocket.ts:178-235 | over every run, what was sent since the last disconnect is transmitted then queued, in order, an open socket leaves no queue; and with throwing sends each message is in exactly one of wire, queue and lost |
| WebSocketTheorems.BackoffOverRuns | mobile/src/services/websocket.ts:237-245 | over every run at most one reconnect timer and one check is pending, and the delay is min(500 * 2^k, 8000) after k firings since the last open or reconnect |
| WebSocketTheorems.OrderKeptIff | mobile/src/services/websocket.ts:178-235 | an event keeps the order exactly when no send on an open socket throws during it |
| WebSocketTheorems.AlwaysInOrderIff | mobile/src/services/websocket.ts:178-235 | over every run, everything sent is on the wire or queued, in order, at every moment exactly when no send on an open socket ever throws |
| WebSocketTheorems.SoleLiveKeptIff | mobile/src/services/websocket.ts:113-161 | the held socket stays the only live one exactly when the event is not a stale close or open, because the handlers do not check which socket they serve |
| WebSocketTheorems.AlwaysSoleIff | mobile/src/services/websocket.ts:113-161 | over every run, the held socket is always the only live one exactly when no event was stale at its moment |
| WebSocketTheorems.ReconnectLosesItsSocket | mobile/src/services/websocket.ts:146-202 | after one reconnect on a live connection, the old socket's close makes the service forget the new one and schedule another connection |
| WebSocketTheorems.DisconnectIsQuiet | mobile/src/services/websocket.ts:168-176 | a disconnect from any reachable state leaves no socket held, no timer held or pending, no wish to reconnect and nothing queued |
| WebSocketTheorems.QuietKeptIff | mobile/src/services/websocket.ts:73-269 | for every event, a disconnected service stays disconnected exactly when the event does not revive it: a connect, a send or a heartbeat's answer while there is a server and a valid token, or a reconnect |
| WebSocketTheorems.AlwaysQuietIff | mobile/src/services/websocket.ts:73-269 | over every run, a disconnected service is disconnected at every moment, and makes no socket, exactly when no event revives it at its moment |
| WebSocketTheorems.QuietStaysQuiet | mobile/src/services/websocket.ts:113-269 | so no run of opens, closes, errors, timers and auth events, whatever is queued, makes a socket or a timer |
| WebSocketTheorems.PingReconnectsIff | mobile/src/services/websocket.ts:121-131 | a heartbeat makes a disconnected service open a socket exactly when host, port and token allow it and one can be constructed, and schedule a retry exactly when it cannot |
| WebSocketFieldTheorems.TimersAfter | mobile/src/services/websocket.ts:237-252 | for every event, the timers pending afterwards: one at the backoff of the firings counted by then, none, or those before |
| WebSocketFieldTheorems.TimerSetIff | mobile/src/services/websocket.ts:237-245 | exactly which events set a reconnect timer, and that each waits the backoff of the firings counted at that moment |
| WebSocketFieldTheorems.BackoffIs | mobile/src/services/websocket.ts:237-245 | that is half a second, one, two and four seconds, and eight from then on |
| WebSocketFieldTheorems.PendingWaits | mobile/src/services/websocket.ts:237-245 | over every run, a pending timer was set by one of its events and waits the backoff of the firings counted up to it |
| WebSocketFieldTheorems.TimerGoneIff | mobile/src/services/websocket.ts:247-252 | a pending timer goes exactly when it fires, on a disconnect, on a reconnect or on a failed recovery |
| WebSocketFieldTheorems.HandlingAfter | mobile/src/services/websocket.ts:204-213 | a challenge is under way exactly from the first one that has a handler until its recovery settles |
| WebSocketFieldTheorems.FailedAuthGivesUp | mobile/src/services/websocket.ts:219-223 | a failed or unhandled challenge leaves no timer and no wish to reconnect, the state shown, and a held socket on its way out |
| WebSocketFieldTheorems.StateIsTold | mobile/src/services/websocket.ts:73-223 | the connection state shown after every event |
| WebSocketFieldTheorems.SocketMadeIff | mobile/src/services/websocket.ts:73-111 | exactly which events make a socket; it is connecting, and the one held |
| WebSocketFieldTheorems.SocketAfter | mobile/src/services/websocket.ts:113-176 | what becomes of every other socket: its own reports, and the close that some events begin on the one held |
| WebSocketFieldTheorems.CheckAfter | mobile/src/services/websocket.ts:254-269 | the check runs exactly from an open until a close, a disconnect or a reconnect |
| WebSocketFieldTheorems.MailAfter | mobile/src/services/websocket.ts:178-235 | for every event, what goes out, is queued and is lost: a flush takes the queue in order, and a throwing send exactly the message behind what went out |
| WebSocketFieldTheorems.WishAfter | mobile/src/services/websocket.ts:73-223 | exactly which events renew, keep and end the wish to reconnect |
| WebSocketFieldTheorems.SettingsAfter | mobile/src/services/websocket.ts:55-71 | host, port, token and the challenge handler change by their own calls alone, and only what those name |
| WebSocketFieldTheorems.NothingIsRefused | mobile/src/services/websocket.ts:73-202 | every call can be made at any time, and every socket that has not closed may report, held or not |
| BackendLifecycle.BackendLifecycleManager.Reject | packages/web-host/src/backend-launcher.ts:596-614 | the retry loop on a failed attempt: again only for a peer and before the fifth attempt |
| BackendLifecycle.BackendLifecycleManager.AttemptStart | packages/web-host/src/backend-launcher.ts:616-737 | one attempt up to its first await, with each synchronous failure |
| BackendLifecycle.BackendLifecycleManager.Start | packages/web-host/src/backend-launcher.ts:581-598 | the first attempt, up to its await, whenever no other start is in flight; an orderly call keeps the invariant |
| BackendLifecycle.BackendLifecycleManager.Retry | packages/web-host/src/backend-launcher.ts:596-610 | the next attempt with the same options; it keeps the invariant if no process is spawned beside another |
| BackendLifecycle.BackendLifecycleManager.OnError | packages/web-host/src/backend-launcher.ts:760-764 | an error before the start is settled fails it for good, whether or not the process is gone |
| BackendLifecycle.BackendLifecycleManager.OnExit | packages/web-host/src/backend-launcher.ts:766-779 | a running child's exit is a crash, any other is recorded with the status it met |
| BackendLifecycle.BackendLifecycleManager.OnClose | packages/web-host/src/backend-launcher.ts:781-811 | which start is rejected, and as what |
| BackendLifecycle.BackendLifecycleManager.HandleCrash | packages/web-host/src/backend-launcher.ts:1024-1072 | window, count, limit and the scheduled delay |
| BackendLifecycle.BackendLifecycleManager.HealthReady | packages/web-host/src/backend-launcher.ts:908-914 | running, with the restart count cleared |
| BackendLifecycle.BackendLifecycleManager.HealthTimeout | packages/web-host/src/backend-launcher.ts:882-902 | keep polling or kill, by the start's options |
| BackendLifecycle.BackendLifecycleManager.Killed | packages/web-host/src/backend-launcher.ts:902-905 | what the kill leaves when it settles |
| BackendLifecycle.BackendLifecycleManager.RestartAfterCrash | packages/web-host/src/backend-launcher.ts:1052-1056 | the crash timer: nothing when stopped, else a start of its own; it keeps the invariant if no process is spawned beside another |
| BackendLifecycle.BackendLifecycleManager.LateReady | packages/web-host/src/backend-launcher.ts:1011-1015 | the late poller: nothing unless its child is still the one starting |
| BackendLifecycle.BackendLifecycleManager.Stop | packages/web-host/src/backend-launcher.ts:917-922 | the early return without a child, and the part before the await, also beside a start in flight; an orderly call keeps the invariant |
| BackendLifecycle.BackendLifecycleManager.StopSettled | packages/web-host/src/backend-launcher.ts:933-935 | the part after the await |
| BackendTheorems.StepKeeps | packages/web-host/src/backend-launcher.ts:581-1072 | every event of an orderly caller keeps the invariant over manager, awaits, timers, pollers and processes |
| BackendTheorems.RunKeeps | packages/web-host/src/backend-launcher.ts:581-1072 | after every orderly run, with one child at a time: a starting or running manager has its child set, a crash restart is pending at most once, at 1000 ms, with no start in flight, and a start in flight owns the child it awaits |
| BackendTheorems.EarlyStopIsIdle | packages/web-host/src/backend-launcher.ts:917-920 | after every orderly run, a stop() that returns early for lack of a child, no start being in flight, leaves nothing that could spawn or report running later |
| BackendTheorems.TimerWithoutChild | packages/web-host/src/backend-launcher.ts:1046-1056 | an orderly run after which a crash restart is pending and no child is set |
| BackendTheorems.EveryCrashRestarts | packages/web-host/src/backend-launcher.ts:766-779 | after every orderly run, a crash of the running backend schedules its restart after exactly 1000 ms and never reaches the limit branch |
| BackendTheorems.RestartsUnlimited | packages/web-host/src/backend-launcher.ts:1024-1072 | for every n there is an orderly run, all its crashes at one moment, with n restarts and a healthy backend at the end: the limit limits nothing |
| BackendTheorems.QuietStaysDown | packages/web-host/src/backend-launcher.ts:917-1072 | from a stopped or failed manager with no start in flight, no run without start() spawns a process or reports running |
| BackendTheorems.StopIsFinalIff | packages/web-host/src/backend-launcher.ts:917-935 | stop() is final, over all later runs without start(), exactly when no start is in flight or that start is only cleaning up after its last attempt |
| BackendRetryTheorems.EarlyExitIff | packages/web-host/src/backend-launcher.ts:766-800 | an awaited process that exits and closes fails its attempt, which is made again exactly for a peer, when nobody had stopped the manager, and before the fifth |
| BackendRetryTheorems.OtherCloseIff | packages/web-host/src/backend-launcher.ts:781-800 | in any state, the close of the awaited process ends or repeats its attempt, any other close changes no start |
| BackendRetryTheorems.KilledIff | packages/web-host/src/backend-launcher.ts:876-905 | the same of a process killed for its silence, which also leaves no child |
| BackendRetryTheorems.AttemptIff | packages/web-host/src/backend-launcher.ts:596-610 | the next attempt counts one more and waits for a process of its own, or ends the start |
| BackendRetryTheorems.FiveAttempts | packages/web-host/src/backend-launcher.ts:596-610 | over every run, orderly or not, no start is at more than its fifth attempt, and none retries after it |
| BackendRetryTheorems.PeerExits | packages/web-host/src/backend-launcher.ts:581-614 | n early exits beside a peer lead to n + 1 processes, for n up to four, by an orderly run |
| BackendRetryTheorems.FifthEndsStart | packages/web-host/src/backend-launcher.ts:596-614 | and the fifth ends the start |
| BackendEventTheorems.CrashIff | packages/web-host/src/backend-launcher.ts:1024-1047 | in any state, a crash restarts after one, two or four seconds by its number within the minute, and the fourth fails the manager |
| BackendEventTheorems.StartBegins | packages/web-host/src/backend-launcher.ts:581-737 | what a start call leaves of its first attempt, by outcome |
| BackendEventTheorems.RestartBegins | packages/web-host/src/backend-launcher.ts:1052-1072 | a due restart is a first attempt with the options of the last start, and a failed one fails the manager; nothing once stopped |
| BackendEventTheorems.HealthTimeoutIff | packages/web-host/src/backend-launcher.ts:882-902 | a start that is not healthy in time resolves with a poller for the child, exactly when its options say so and there is a child, else its process is killed |
| BackendEventTheorems.HealthEndsStart | packages/web-host/src/backend-launcher.ts:908-914 | a healthy start ends, running and with its crashes forgotten; the crash window stays |
| BackendEventTheorems.PortIsNext | packages/web-host/src/backend-launcher.ts:868-888 | while the port is awaited, its report leads to the health check of the same process, the timeout to its kill |
| BackendEventTheorems.ErrorIsFinal | packages/web-host/src/backend-launcher.ts:760-764 | in either wait an error of the process ends the start, and takes only that process |
| BackendRetryTheorems.ErrorEndsStart | packages/web-host/src/backend-launcher.ts:760-764 | and it is not tried again |
| BackendEventTheorems.ExitIsRemembered | packages/web-host/src/backend-launcher.ts:766-779 | an exit while not running restarts nothing; whether it met a stop is remembered only for a start that awaits it |
| BackendEventTheorems.LateHealthIff | packages/web-host/src/backend-launcher.ts:1007-1015 | a poller reports running exactly when its child is still the one starting, and ends in any case |
| BackendEventTheorems.PollerEndsIff | packages/web-host/src/backend-launcher.ts:1007-1011 | a poller gives up exactly when that is no longer so |
| BackendEventTheorems.StopRuns | packages/web-host/src/backend-launcher.ts:917-935 | a stop with a child and its settling leave a stopped manager without one, and nothing else changed |
| HealthPoll.Poll | packages/web-host/src/backend-launcher.ts:953-984 | the loop: it attempts while the deadline is ahead and the caller wishes, stops at the first healthy pass, and tracks the last gap, the largest, the last offset and the last status, body and error |
| HealthPoll.WaitForHealth | packages/web-host/src/backend-launcher.ts:937-997 | the loop's result and diagnostics against the clock readings and answers, with and without a deadline: which passes attempt, attempts within ceil(timeout / 200), gaps, last status, body and error, exact deficit, overrun and delay verdict |
| HealthPoll.AttemptsFit | packages/web-host/src/backend-launcher.ts:947-954 | attempts never outnumber the intervals the timeout holds |
| HealthPoll.MaxGapIsMost | packages/web-host/src/backend-launcher.ts:956-960 | the reported largest gap bounds every gap, is one of them, and no gap is below 200 ms |
| HealthPoll.GapsAddUp | packages/web-host/src/backend-launcher.ts:961-963 | the last attempt lies no further after the first than attempts - 1 times the largest gap |
| HealthPoll.CeilIs | packages/web-host/src/backend-launcher.ts:945 | the expected attempts are the fewest intervals that hold the timeout |
| HealthPoll.RecordedIs | packages/web-host/src/backend-launcher.ts:964-982 | what each answer but a good one leaves of status, error and the first 500 characters of the body |
| ChatStream.AskOnce | scripts/eval/run.ts:173-246 | for every cutting of a text into chunks, the indexOf loop answers what the text's newline-terminated lines answer |
| ChatStream.ReadLine | scripts/eval/run.ts:192-235 | one line: what is skipped, what is read, what throws |
| ChatStream.Collect | scripts/eval/run.ts:227-235 | fragments are added to their index's call in order |
| ChatStream.MeasureOne | scripts/measure-spoken-turn.ts:137-170 | for every cutting of a text into chunks, the split/pop loop counts what the same lines count |
| ChatStream.CountLine | scripts/measure-spoken-turn.ts:149-168 | one line of the second reader |
| ChatStream.CountLines | scripts/measure-spoken-turn.ts:148-169 | the inner loop over complete lines, before any that follow |
| ChatStream.NextLine | scripts/eval/run.ts:190-194 | a line cut from the buffer is the next line of the buffer and everything still to come |
| ChatStream.LinesAcross | scripts/measure-spoken-turn.ts:144-148 | the lines of two joined texts: those of the first, then those of its unfinished rest with the second |
| ChatStream.SplitIsLines | scripts/measure-spoken-turn.ts:146-147 | split and pop yield the lines and the unfinished rest |
| ChatStreamTheorems.LinesAreTheText | scripts/eval/run.ts:187-194 | the lines with their newlines and the unfinished rest are the text; no line holds a newline |
| ChatStreamTheorems.PayloadIff | scripts/eval/run.ts:192-198 | what a line hands to the parser: exactly the x that it spells as white space, `data:`, white space, x without outer white space, white space, unless x is the end mark |
| ChatStreamTheorems.ReadersAgree | scripts/measure-spoken-turn.ts:137-170 | exactly when each reader succeeds, and that both then report the same contents and fragments |
| ChatStreamTheorems.AskFolds | scripts/eval/run.ts:217-235 | the reply is the concatenation of the content deltas, the calls those of all fragments |
| ChatStreamTheorems.MeasureFolds | scripts/measure-spoken-turn.ts:160-168 | the completion is the concatenation of the content deltas, the count that of all fragments |
| ChatStreamTheorems.CallsAssemble | scripts/eval/run.ts:227-235 | one call an index, in order of first appearance, with the last id and name and the concatenation of its argument fragments |
| ChatStreamTheorems.AnswerReads | scripts/eval/run.ts:239-245 | what askOnce answers for a text: joined contents and the named calls in order of first appearance, or an error exactly when a payload is null or has a null delta |
| PeekRouter.RouteConnection | packages/web-host/src/static-server.ts:301-325 | the data handler's choice for any chunks, and that it replays exactly the bytes it consumed |
| PeekRouterTheorems.SpellMatches | packages/web-host/src/static-server.ts:220-225 | every line spelled by the routing pattern is accepted |
| PeekRouterTheorems.UpgradeIffSpelled | packages/web-host/src/static-server.ts:220-225 | the single-pass matcher accepts exactly the lines the pattern spells: method, path, optional query, version, optional carriage return |
| PeekRouterTheorems.PrefixRoutes | packages/web-host/src/static-server.ts:215-225 | what has arrived so far is undecided or decided as the whole stream is |
| PeekRouterTheorems.RouteOfCut | packages/web-host/src/static-server.ts:311-325 | any cutting of a stream is routed as the whole stream at once |
| PeekRouterTheorems.CutFreeIff | packages/web-host/src/static-server.ts:152-156 | the choice is independent of the cutting exactly unless the stream is an upgrade whose first newline lies at 4096 or beyond |
| PeekRouterTheorems.LongQueryIsCut | packages/web-host/src/static-server.ts:152-156 | a concrete request, with a query as long as the limit, that is routed by how its bytes arrive |
| PeekRouterTheorems.TlsIsDropped | packages/web-host/src/static-server.ts:215-218 | a TLS handshake is dropped however its bytes arrive |
| PeekRouterTheorems.RouteIsFate | packages/web-host/src/static-server.ts:301-325 | a late upgrade aside, a connection's fate in any chunking: dropped for a handshake, as its first line says, open below the limit, internal at it |
| PeekRouterTheorems.LineIsRouted | packages/web-host/src/static-server.ts:215-225 | a stream whose first line ends below the limit goes to the backend exactly when the pattern spells that line |
| PeekRouterTheorems.HighBitIsDropped | packages/web-host/src/static-server.ts:223 | a byte above 127 is read as the character 128 below it |
| BuildScrub.ScrubBuildUser | scripts/buildFoolcore.js:192-212 | the buffer and the count afterwards, short names left alone |
| BuildScrub.ReplaceAll | scripts/buildFoolcore.js:202-208 | the loop that overwrites in place and searches on behind what it wrote |
| BuildScrub.Copy | scripts/buildFoolcore.js:205 | Buffer.copy writes its bytes there and nowhere else |
| BuildScrubTheorems.PatchRemovesOne | scripts/buildFoolcore.js:199-207 | overwriting one occurrence removes it, no other, and creates none |
| BuildScrubTheorems.ScanOverwrites | scripts/buildFoolcore.js:203-208 | the loop overwrites each first occurrence behind the last, until there is none |
| BuildScrubTheorems.HitsApart | scripts/buildFoolcore.js:207 | no two overwritten windows share a backslash |
| BuildScrubTheorems.SurvivorsAreMissed | scripts/buildFoolcore.js:203-208 | what survives is what occurred and was not overwritten |
| BuildScrubTheorems.MissedFollowsHit | scripts/buildFoolcore.js:207 | an occurrence is missed only at the closing backslash of one overwritten |
| BuildScrubTheorems.ScrubChanges | scripts/buildFoolcore.js:199-205 | the length stays, and a byte changes to x exactly inside the name of an overwritten window |
| BuildScrubTheorems.ScrubLeaves | scripts/buildFoolcore.js:192-212 | the occurrences left are exactly those not overwritten, each starting at the closing backslash of one that was |
| BuildScrubTheorems.ScrubCleansIff | scripts/buildFoolcore.js:182-208 | the name is gone exactly when it never stood twice in a row with one backslash between |
| BuildScrubTheorems.DoubledNameSurvives | scripts/buildFoolcore.js:207 | a concrete buffer that keeps the name |
| BuildScrubTheorems.XsChangeNothing | scripts/buildFoolcore.js:199-208 | a name of x only leaves the buffer as it was |
| GradleSigning.EndOfBlock | mobile/scripts/withReleaseSigning.js:62-72 | the loop finds the specification's block end, or -1 |
| GradleSigningTheorems.BlockEndIsLeast | mobile/scripts/withReleaseSigning.js:62-72 | it is the least index behind the opening brace at which the braces balance |
| GradleSigningTheorems.BlockEndInside | mobile/scripts/withReleaseSigning.js:62-72 | text around a balanced block does not move its end |
| GradleSigningTheorems.EntrySpells | mobile/scripts/withReleaseSigning.js:84-92 | the entry as text: each key with its own value, quoted, in order |
| GradleSigningTheorems.WordIff | mobile/scripts/withReleaseSigning.js:96 | the word characters, listed |
| GradleSigningTheorems.SiteIsFound | mobile/scripts/withReleaseSigning.js:80-100 | an entry behind the signing configs' anchor is found again at its place |
| GradleSigningTheorems.WrittenForm | mobile/scripts/withReleaseSigning.js:98-108 | replacing or inserting, the result is some text, the entry and some text, the entry at a place where it is found |
| GradleSigningTheorems.AddTwiceIff | mobile/scripts/withReleaseSigning.js:79-109 | adding the entry to its own output changes nothing exactly when the entry's braces balance |
| GradleSigningTheorems.BracelessIsSelfClosed | mobile/scripts/withReleaseSigning.js:84-92 | values without braces meet that condition |
| GradleOrderTheorems.LoneBraceNeverSettles | mobile/scripts/withReleaseSigning.js:79-109 | a store file that opens with a closing brace is a value on which adding the entry twice is not adding it once |
| GradleOrderTheorems.AnchorIsWritten | mobile/scripts/withReleaseSigning.js:79-109 | and the anchor alone is a file on which that happens |
| GradleSigningTheorems.PointTwice | mobile/scripts/withReleaseSigning.js:38-59 | pointing the release build twice is pointing it once, and nothing up to the release block changes |
| GradleSigningTheorems.PointKeepsToReleaseIff | mobile/scripts/withReleaseSigning.js:45-58 | the rewrite stays inside the release block exactly when the first debug statement from there on stands inside it |
| GradleBlockTheorems.PointsItsBlockIff | mobile/scripts/withReleaseSigning.js:38-59 | on success, the release block of the result holds the release statement exactly when the first of the two statements from that block on stands before the block's end |
| GradleBlockTheorems.EditedEnd | mobile/scripts/withReleaseSigning.js:54-58 | the edit moves the block's end along by its growth when it stands before it, and leaves it otherwise |
| GradleBlockTheorems.DebugBlockIsEdited | mobile/scripts/withReleaseSigning.js:45-58 | a concrete file whose release block stays without a statement while its debug block is changed |
| GradleRewriteTheorems.RewriteTwiceIff | mobile/scripts/withReleaseSigning.js:135-145 | in the template's order of blocks and with no build types inside the entry, the plugin applied to its own output returns it unchanged exactly when the braces of the entry balance |
| GradleRewriteTheorems.RewriteTwice | mobile/scripts/withReleaseSigning.js:135-145 | in particular it does for values without braces |
| GradleOrderTheorems.OtherOrderNeverSettles | mobile/scripts/withReleaseSigning.js:79-145 | a concrete file, with the build types first, on which the plugin changes its own output for all values without braces: the word release of a rewritten statement is taken for an entry |
| WecomFrame.PaddedToBlocks | examples/ext-wecom-bot/channels/ext-wecom-bot-channel.js:23-28 | the padded length is a multiple of 32 and the payload its prefix |
| WecomFrame.UnpadsIff | examples/ext-wecom-bot/channels/ext-wecom-bot-channel.js:15-28 | unpadding inverts padding exactly when the length is not a positive multiple of 32 |
| WecomFrame.UInt32RoundTrips | examples/ext-wecom-bot/channels/ext-wecom-bot-channel.js:38-48 | the length field reads back |
| WecomFrame.FrameOpens | examples/ext-wecom-bot/channels/ext-wecom-bot-channel.js:37-39 | behind the random bytes the frame yields length and message |
| WecomFrame.AlignedIsCut | examples/ext-wecom-bot/channels/ext-wecom-bot-channel.js:15-28 | in the aligned case the message's own last byte is read as padding |
| WecomFrame.RoundTripIff | examples/ext-wecom-bot/channels/ext-wecom-bot-channel.js:30-53 | a message shorter than 2^32 bytes survives encryption and decryption exactly when 20 plus its length is not a multiple of 32 |
| WecomFrame.ForeignFrameOpens | examples/ext-wecom-bot/channels/ext-wecom-bot-channel.js:15-40 | any frame, with any length field, anything behind it and padding of any length up to a whole block, opens to what the length field counts, or to all there is |
| WecomFrame.RefusedIff | examples/ext-wecom-bot/channels/ext-wecom-bot-channel.js:15-39 | exactly when opening fails, and as what: on a padding byte outside 1 to 32, or when no length field is left |
| WecomFrame.NothingOrTooMuch | examples/ext-wecom-bot/channels/ext-wecom-bot-channel.js:15-53 | an empty frame is refused, and exactly a message of 2^32 bytes or more cannot be sent |
| WecomState.Records.ShouldDropDuplicate | examples/ext-wecom-bot/channels/state.js:73-82 | the verdict and the stamp it leaves |
| WecomState.Records.RegisterResponseUrl | examples/ext-wecom-bot/channels/state.js:84-94 | blank chats and URLs are ignored, others replace the chat's record |
| WecomState.Records.ConsumeResponseUrl | examples/ext-wecom-bot/channels/state.js:96-109 | what is given out, and that the record is then used or gone |
| WecomState.Records.DropOldEvents | examples/ext-wecom-bot/channels/state.js:114-118 | the first cleanup loop keeps exactly the stamps no older than the limit |
| WecomState.Records.DropSpentUrls | examples/ext-wecom-bot/channels/state.js:133-137 | the last cleanup loop keeps exactly the usable records |
| WecomState.Records.CleanupExpiredRecords | examples/ext-wecom-bot/channels/state.js:111-138 | both, for the records modelled |
| WecomStateTheorems.DroppedIff | examples/ext-wecom-bot/channels/state.js:73-82 | over every run on a positive non-decreasing clock, a delivery is dropped exactly when the same id was accepted less than five minutes before |
| WecomStateTheorems.AcceptedApart | examples/ext-wecom-bot/channels/state.js:73-82 | two accepted deliveries of one id are at least five minutes apart |
| WecomStateTheorems.YieldsIff | examples/ext-wecom-bot/channels/state.js:84-109 | over every run a URL is given out exactly when the chat's last registration has it, has not been consumed and is less than 55 minutes old |
| WecomStateTheorems.YieldsOnce | examples/ext-wecom-bot/channels/state.js:96-109 | after a consumption, a chat gets nothing until it is registered again |
| WecomStateTheorems.SpentRecordGoes | examples/ext-wecom-bot/channels/state.js:96-109 | a consumption marks the record it gives out and deletes one it cannot give out, and touches no other |
| WecomStateTheorems.RegistrationIs | examples/ext-wecom-bot/channels/state.js:84-94 | white space for a chat or a URL registers nothing, anything else an unused record of that chat for 55 minutes |
| WecomStateTheorems.CleanupKeeps | examples/ext-wecom-bot/channels/state.js:111-138 | a cleanup keeps exactly the stamps of the last five minutes and the records that can still be given out |
| WecomStateTheorems.CleanupsAreInvisible | examples/ext-wecom-bot/channels/state.js:111-138 | wherever cleanups fall in a run, every later delivery and consumption is answered as if there had been none |
| BridgeService.BridgeService.On | mobile/src/services/bridge.ts:70-74 | the table with one listener more |
| BridgeService.BridgeService.Off | mobile/src/services/bridge.ts:76-82 | the listener gone, and its set with it once empty |
| BridgeService.BridgeService.GenerateRequestId | mobile/src/services/bridge.ts:13-17 | the counter goes up by one and its digits end the id |
| BridgeService.BridgeService.Emit | mobile/src/services/bridge.ts:61-64 | one message with its data and a fresh id, nothing awaited |
| BridgeService.BridgeService.Request | mobile/src/services/bridge.ts:37-55 | counter, callback name, timeout, listener and the message sent of a new request |
| BridgeService.BridgeService.HandleReply | mobile/src/services/bridge.ts:47-51 | timeout cleared, listener gone, promise resolved |
| BridgeService.BridgeService.HandleTimeout | mobile/src/services/bridge.ts:42-45 | listener gone, promise rejected |
| BridgeService.BridgeService.HandleMessage | mobile/src/services/bridge.ts:22-32 | every listener of the name is called, each once |
| BridgeTheorems.Base36Reads | mobile/src/services/bridge.ts:15-17 | the counter's digits read back as the counter and hold no underscore |
| BridgeTheorems.NamesDiffer | mobile/src/services/bridge.ts:37-39 | two callback names are equal only if their counters are, whatever the names and clock digits |
| BridgeTheorems.BroadcastSettles | mobile/src/services/bridge.ts:22-32 | a broadcast settles the requests among its listeners, each once, and no other |
| BridgeTheorems.StepKeeps | mobile/src/services/bridge.ts:13-83 | every request, emit, subscription, unsubscription, message and timeout keeps the invariant |
| BridgeTheorems.RunKeeps | mobile/src/services/bridge.ts:13-83 | it holds after every run |
| BridgeTheorems.SettledOnce | mobile/src/services/bridge.ts:37-55 | over every run a request is settled at most once; it holds a timer exactly while waiting, and listens exactly while waiting and only under its own name |
| BridgeTheorems.CallbackNamesDistinct | mobile/src/services/bridge.ts:15-39 | no two requests of a run share a callback name |
| BridgeTheorems.RequestIsSent | mobile/src/services/bridge.ts:37-54 | every request of a run was sent with its data, under its name and with the id that its callback name ends in |
| BridgeTheorems.ReplySettlesItsOwn | mobile/src/services/bridge.ts:22-52 | a message settles, with its data, exactly the waiting request whose callback name it carries |
| BridgeTheorems.NoEmptyListenerSet | mobile/src/services/bridge.ts:70-82 | no empty listener set is stored |
| BridgeSettlementTheorems.TimeoutRejects | mobile/src/services/bridge.ts:42-45 | over every run, a timeout settles its own request, which was waiting, with a rejection alone, and changes no other |
| BridgeSettlementTheorems.SettledIff | mobile/src/services/bridge.ts:22-55 | over every run, a request is settled by exactly the first event after its call that is its timeout or a message under its name: rejected, or resolved with that message's data |
| BridgeSettlementTheorems.RejectedIff | mobile/src/services/bridge.ts:42-45 | over every run, a request is rejected exactly when its timeout has fired |
| BridgeTrafficTheorems.OutboxIsCalls | mobile/src/services/bridge.ts:13-17 | over every run, exactly the requests and emits send, one message each, in order, with their data, subject and number |
| BridgeTrafficTheorems.HandlerListensIff | mobile/src/services/bridge.ts:70-82 | over every run, a handler listens under a name exactly when its last change there was a subscription |
| BridgeTrafficTheorems.MessageReaches | mobile/src/services/bridge.ts:22-32 | over every run, a message reaches exactly the handlers that listen and the waiting requests of its name |
| BridgeTrafficTheorems.CallsAreFree | mobile/src/services/bridge.ts:37-82 | over every run, a call can always be made, and a timeout fires only while its request waits |
| BridgeTrafficTheorems.MessageCanArrive | mobile/src/services/bridge.ts:22-32 | a message can arrive under any name at any time: its listeners can be enumerated |
| Grouping.SplitByWorkspace | mobile/src/utils/groupingHelpers.ts:57-71 | the first loop: workspaces in order of first appearance, the rest in order |
| Grouping.FileGroups | mobile/src/utils/groupingHelpers.ts:75-90 | the second loop: sorted groups under the label of their newest conversation |
| Grouping.FileLoose | mobile/src/utils/groupingHelpers.ts:94-100 | the third loop |
| Grouping.ItemsOf | mobile/src/utils/groupingHelpers.ts:111-129 | a section's items, sorted |
| Grouping.GroupByTimelineAndWorkspace | mobile/src/utils/groupingHelpers.ts:53-136 | the sections of the four keys, empty ones left out |
| Grouping.BuildGroupedHistory | mobile/src/utils/groupingHelpers.ts:138-152 | pinned conversations apart, the others grouped |
| GroupingTheorems.ItemsShowTheirs | mobile/src/utils/groupingHelpers.ts:73-129 | a label's items show exactly the conversations that belong there, as often as they are listed |
| GroupingTheorems.ConservesIff | mobile/src/utils/groupingHelpers.ts:138-152 | every conversation is shown exactly once across pinned list, single items and groups, if and only if no label in use translates two timeline keys |
| GroupingTheorems.UntranslatedIsShownTwice | mobile/src/utils/groupingHelpers.ts:104-135 | a concrete translator with which any unpinned conversation alone is not shown exactly once |
| GroupingTheorems.NothingIsLost | mobile/src/utils/groupingHelpers.ts:138-152 | for any translator nothing is lost and nothing else is shown |
| GroupingTheorems.GroupIsWhole | mobile/src/utils/groupingHelpers.ts:75-90 | a group is all unpinned conversations of its workspace, newest first, dated by the newest |
| GroupingTheorems.ListsDescend | mobile/src/utils/groupingHelpers.ts:80-152 | the pinned list, every section and every group are in descending order, and no section is empty |
| GroupingTheorems.FallsIff | mobile/src/utils/groupingHelpers.ts:104-135 | when no label in use is shared, item times never increase from one section to the next exactly when nothing is listed under an earlier timeline key than something dated ahead of today |
| GroupingTheorems.HistoryFalls | mobile/src/utils/groupingHelpers.ts:104-135 | in particular they never do if no activity is on a later day than today |
| GroupingTheorems.AheadIsListedLate | mobile/src/utils/groupingHelpers.ts:104-135 | and they always do, for any translator, once one conversation is dated ahead of today and another today |
| GroupingTheorems.LabelIs | mobile/src/utils/timeline.ts:28-37 | the label by the days between the activity and today, either way |
| GroupingTheorems.DayIs | mobile/src/utils/timeline.ts:11-18 | a day is the 24 hours of local time from its midnight on |
| GroupingTheorems.ActivityIs | mobile/src/utils/timeline.ts:23-25 | a conversation is dated by its change, by its creation only without one |
| GroupingTheorems.PinnedApart | mobile/src/utils/groupingHelpers.ts:138-152 | the pinned list holds exactly the pinned conversations, as often as they are given |
| GroupingTheorems.PinnedAtIs | mobile/src/utils/groupingHelpers.ts:46-49 | a pin without a time counts as pinned at 0 |
| GroupingTheorems.AloneOrTogether | mobile/src/utils/groupingHelpers.ts:57-71 | in every section, exactly the unpinned conversations with a named workspace of their own stand in the group of that name, the others alone |
| Listing.SortDescends | mobile/src/utils/groupingHelpers.ts:80 | the sort orders by descending key |
| Listing.SortMultiset | mobile/src/utils/groupingHelpers.ts:80 | the sort keeps every element |
| Listing.SortIsStable | mobile/src/utils/groupingHelpers.ts:80 | elements of equal key keep their order |
| Listing.IndexLooksUp | mobile/src/utils/groupingHelpers.ts:57-66 | a map filled entry by entry holds under each key what filtering by it gives, in order |
| BundleVerifier.VerifyBundledFoolcoreResources | packages/shared-scripts/src/verify-bundled-foolcore-resources.js:335-351 | no failure is reported exactly when the bundle is complete as declared, and missing is empty exactly when failures are |
| BundleVerifier.ValidIffInner | packages/shared-scripts/src/verify-bundled-foolcore-resources.js:107-111 | the test on contract paths accepts exactly the backslash-free paths that lead from any root to the place they spell inside it |
| BundleVerifier.ResolveShrinks | packages/shared-scripts/src/verify-bundled-foolcore-resources.js:113-115 | joining leaves a list of segments as it is exactly when none is empty, a dot or two dots |
| BundleVerifier.Report.Fail | packages/shared-scripts/src/verify-bundled-foolcore-resources.js:26-36 | how a failure shows in both lists |
| BundleVerifier.Report.FailWithoutPath | packages/shared-scripts/src/verify-bundled-foolcore-resources.js:133-143 | a failure without a path is in the failures alone |
| BundleVerifier.Report.RequireFile | packages/shared-scripts/src/verify-bundled-foolcore-resources.js:38-47 | one failure and one missing path exactly when the file is not there |
| BundleVerifier.Report.RequireDirectory | packages/shared-scripts/src/verify-bundled-foolcore-resources.js:49-59 | one failure and one missing path exactly when the directory is not there |
| BundleVerifier.Report.VerifyBundleManifest | packages/shared-scripts/src/verify-bundled-foolcore-resources.js:69-97 | fails exactly unless the manifest is an object of this platform and architecture |
| BundleVerifier.Report.ValidateContractPathField | packages/shared-scripts/src/verify-bundled-foolcore-resources.js:133-143 | fails exactly on a path that is not an inner path |
| BundleVerifier.Report.ValidateAll | packages/shared-scripts/src/verify-bundled-foolcore-resources.js:286-294 | stops at the first such path |
| BundleVerifier.Report.VerifyManagedNode | packages/shared-scripts/src/verify-bundled-foolcore-resources.js:201-228 | fails exactly unless the node section is complete and its executable exists |
| BundleVerifier.Report.RequireFiles | packages/shared-scripts/src/verify-bundled-foolcore-resources.js:297-299 | fails exactly when one of the files is not there |
| BundleVerifier.Report.RequireDirectories | packages/shared-scripts/src/verify-bundled-foolcore-resources.js:300-302 | fails exactly when one of the directories is not there |
| BundleVerifier.Report.VerifyManagedCli | packages/shared-scripts/src/verify-bundled-foolcore-resources.js:265-303 | fails exactly unless the CLI's fields, paths, files and directories are complete |
| BundleVerifier.Report.CollectClis | packages/shared-scripts/src/verify-bundled-foolcore-resources.js:230-250 | fails exactly unless every CLI is named and no name repeats; the names seen are those of the contract |
| BundleVerifier.Report.VerifyManagedClis | packages/shared-scripts/src/verify-bundled-foolcore-resources.js:230-263 | fails exactly unless names are unique, the required CLIs are there and each CLI is complete |
| BundleVerifier.Report.VerifyManagedResources | packages/shared-scripts/src/verify-bundled-foolcore-resources.js:145-199 | fails exactly unless the contract file holds a complete contract |
| LogPacker.Combine | packages/desktop/src/sentry.ts:363-368 | segments under their headers, one newline between two |
| LogPacker.PackAndCap | packages/desktop/src/sentry.ts:362-393 | what is packed is a suffix of the combined log, truncated exactly when the whole is too big; it is the first of five cuts that fits, or else the last characters of the fifth, half as many as bytes allowed |
| LogPacker.Shrink | packages/desktop/src/sentry.ts:375-392 | the loop and the last resort |
| LogPacker.CutMeans | packages/desktop/src/sentry.ts:377-383 | every attempt leaves a suffix, shortens anything of more than three characters, and keeps seven tenths or 1024 characters |
| LogPacker.TextShrinks | packages/desktop/src/sentry.ts:376-384 | each attempt's text is shorter than every earlier one of more than three characters |
| LogPacker.CutLength | packages/desktop/src/sentry.ts:377-383 | how many characters a cut keeps: the target, or seven tenths of what is not longer |
| LogPacker.TargetIs | packages/desktop/src/sentry.ts:378-379 | the target is the most characters that fill nine tenths of the limit at the current ratio, and at least 1024 |
| LogPacker.CombinedJoins | packages/desktop/src/sentry.ts:363-368 | the log of two lists of segments is their two logs with one newline between |

## Left out

- Orderly callers: runs in which stop() races a start(), or processes run beside each other, are covered by `StopIsFinalIff`, not by the run invariant.
- EveryCrashRestarts: assumes that one child exists at a time, as the caller's discipline ensures.
- RewriteTwiceIff: assumes that the signing configs stand before the build types, as in the template (`OtherOrderNeverSettles` shows it is needed), and that no value spells `buildTypes {`; each edit alone has its exact condition.
- VerifyBundledFoolcoreResources: does not state the order, texts and details of what is reported, nor the list of paths checked; paths are lists of segments under POSIX rules.
- WaitForHealth: an error is one text, and what the last try to connect brings is given.
- OnClose: the report of an exit after the health timeout, to a handler the caller may give, is not modelled.
- Start: a second start() while one is in flight, and a crash restart due beside one, are not represented.
- PackAndCap: the ratio is exact where the code divides in floating point; file headers are given strings.
- ReadersAgree: usage figures and times to the first word are not modelled; a decoded chunk is a string.
- RoundTripIff: the message is its UTF-8 bytes.
- ScrubBuildUser: the name is its Latin-1 bytes; reading and writing the file are not modelled.
- CleanupExpiredRecords: the stream records of the channel are not modelled.
- HandleMessage: handlers of other callers only receive; what they do in turn is not modelled, and the order in which a set of listeners is called is left open. `once` is a handler that removes itself.
- State listeners and message handlers that call back into the services while being called.
- Messages whose content does not fit their kind, on which the reducer would throw; ids that are objects are compared by value.
- transformMessage: a single switch without state.
- The backend's arguments, ports, output tails, peer-error parsing and diagnostics; killing process trees.
- pickLanIP, addressReachability, selectRecentLogFiles: selections over short lists.
- Daylight saving in the day difference; the clock is read once per grouping; a workspace's display name.
- Reading the signing values from the environment and the thrown error texts.
- React components, packaging and installer scripts, evaluation judges.
