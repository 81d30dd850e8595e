# A verified model of the relay, the agent and its small algorithms

This project models the parts of the DevBridge relay system in which several pieces of state have to agree, and
proves what they keep.

- **The relay hub** is a transition system over sockets, per-session peers, pending requests and the store. One event
  is one step, because every handler of the source runs to its end. `RelayHubModel` holds the steps,
  `RelayHubInvariants` and `RelayHubSteps` what they keep, `RelayHubRuns`, `RelayHubReachability`, `RelayHubHolders`,
  `RelayHubReplies`, `RelayHubAsking` and `RelayHubJoining` the theorems over runs, `RelayHubFrames` and
  `RelayHubPresence` who is handed what by each event, and `RelayHub` the object whose handlers change the maps in place
  and end in the state of the specified step. `AgentRequests` is the table of pending file requests.
- **The relay store** is four tables. `HistoryLog` says what trimming and ageing do to the message log, `Snapshots`
  how partial updates merge, `StoreTables` gives every statement its effect, `StoreRuns` proves what any run leaves,
  and `RelayStore` is the object.
- **The relay client** is cut at its awaits; what waits is resumed in any order with any outcome, and its sockets open,
  fail and close at any time. `RelayClientModel` is about its timers and the exceptions nobody catches,
  `RelayClientSteps` about what one event arms and begins, `RelayClientStop` about what `stop` ends,
  `RelayClientProgress` about it going on trying and how its process can end, `RelayClientRuns` holds runs that show its
  limits, and `RelayClientObject` is the object.
- **The smaller algorithms**: newline framing (`LineFraming`), workspace ids and the `.env` file (`WorkspaceNames`,
  `WorkspaceIdentity`), terminal messages (`TerminalText`, `TerminalFormat`, `PathSegments`), the file search
  (`FileFilter`), the registry of command-line tools (`CliRegistry`), the Codex adapter (`CodexAdapter`), and the name
  of a new terminal (`TerminalNames`).
- `Options`, `Sequences`, `OrderedMaps`, `Texts` and `Messages` are shared.

Where the source changes state in place there is a class whose methods are proved against the specification functions;
the lemmas are about those functions. `dafny verify dfyconfig.toml` checks everything.

## Where the code does less than it seems to promise

- An agent's close, or its hello under a new id, deletes an entry by key. When another live socket has taken the key,
  that socket is no longer reachable: `LateCloseHidesSuccessor` is a run. `AllReachableIff` says for which runs all are
  reachable, `RegisteredIffSaidLast` who is registered in any run, and `CloseKeepsOthersIff`, `HelloKeepsOthersIff`,
  `RenameKeepsOthersIff` and `HelloDisplacesIff` when one event keeps the others.
- A file reply settles any pending request it names, whichever session asked and whichever replies: `ReplySettlesIff`,
  `OtherSessionSettles`. Agents that reply only to what they were asked keep to their session: `OwnRepliesSettle`.
- `stop` on the relay client clears the timers, but the socket's own close event arms a reconnect again, and a frame of
  a socket that is still open has a refused session created anew: `StopIsFinalIff` is the exact condition,
  `ClosedSocketReconnects` and `StoppedClientCreates` show the two for all clients, and `StoppedClientReconnects` and
  `StoppedClientCreatesSession` are runs from the start.
- A status reply that arrives after a rotation brings the session back without its id, URL and expiry
  (`PartialOnlyFromLateStatus`). `connect` throws on such a session; after a retry's or a rotation's creation and in a
  reconnect nobody catches that, and the process ends: `LateStatusCrashes`, `CrashIsReachable`.
- The open handler sends on the current socket, whichever socket opened. When a reconnect has put a newer one in its
  place that is still in its handshake, `send` throws, and the process ends: `OvertakenSocketCrashes`,
  `OvertakenSocketRun`. `CrashesIff` is the exact condition for both throws; as long as neither happens the client never
  runs dry (`NeverDormant`).
- A session that lives longer than a 31-bit timeout is rotated after 1 ms instead of a minute before it expires
  (`RotationDue`), and with sessions that all live so long this goes on for ever (`FarSessionsRotateForEver`).
- Persisting an id into a `.env` file with CRLF line ends swallows the line feed before the entry, after which the id
  is not read: `CrlfVisibleIff`, `CrlfLosesId`; `ReadAfterPersistIff` is the exact condition for all texts.
- A blank `WORKSPACE_ID` names the workspace "project"; the folder names are consulted only when it slugs to a
  reserved name (`FolderNameOnlyWhenReserved`).
- The extension's read buffer survives a reconnect, so an unfinished line of the old connection costs the first
  message of the new one: `LeftoverJoinsFirstLine`, `ReconnectIntactIff`, and for messages as they are sent, and a
  break at any byte, `BrokenConnection`.
- After a `destroy` of the terminal in use and a respawn, the late exit of the old terminal makes the adapter forget the
  new one: `LateExitForgetsNewTerminal`. `OneTerminalIff` is the exact condition.

## Model

| member | source | states |
|---|---|---|
| RelayHubRuns.StepInv | relay/src/server.ts:375-504 | every event of the hub (connection, frame, close, file request, timer, clock, store operation) keeps all invariants: registered sockets, cached active id, what was sent, the log, the tables and the pending requests |
| RelayHubRuns.ReachableInv | relay/src/server.ts:375-504 | the invariants hold in every state of every run from the start |
| RelayHubRuns.NoDanglingNoLeak | relay/src/server.ts:230-240 | in every reachable state a registered socket has not had its close event, is of the session, in its role and under its own workspace id; a session has an entry only while an authenticated socket of it lives |
| RelayHubRuns.SessionIsolation | relay/src/server.ts:385-481 | every frame a step sends goes to an open socket of the session the step acts for and carries that session's messages only; a step for no session sends nothing |
| RelayHubRuns.DefaultTargetIsLatestHello | relay/src/server.ts:361-373 | the cached active id is null exactly when no agent is registered, else it names the registered agent with the most recent hello, and that agent is the target when no id is given; the final fallback never yields one |
| RelayHubRuns.ListMarksDefaultTarget | relay/src/server.ts:242-263 | the workspace list names every registered and every stored workspace once and marks exactly one active, the default target's, when an agent is registered, else none |
| RelayHubInvariants.RekeyedOk | relay/src/server.ts:336-346 | leaving the old id and taking the new one keeps the agents map a set of live agents in the order of their latest hellos, with the new one last |
| RelayHubSteps.AuthInv | relay/src/server.ts:385-413 | authenticating keeps the invariants and sends within the session only |
| RelayHubSteps.RegisterInv | relay/src/server.ts:330-359 | a hello keeps the invariants, also when the workspace row cannot be stored because its session is gone |
| RelayHubSteps.ForwardInv | relay/src/server.ts:450-481 | forwarding keeps the invariants and sends within the session only |
| RelayHubSteps.LaterFrameInv | relay/src/server.ts:416-481 | any frame of an authenticated socket keeps the invariants, failing ones included |
| RelayHubSteps.CloseInv | relay/src/server.ts:483-504 | the close event keeps the invariants and leaves no reference to the closed socket |
| RelayHubSteps.AppendInv | relay/src/store.ts:227-277 | appending keeps message ids distinct and the history table a part of what was appended |
| RelayHubRuns.RequestInv | relay/src/server.ts:277-305 | a file request keeps the invariants and goes to a socket of the session asked for |
| RelayHubReachability.LiveAgentsReachable | relay/src/server.ts:361-367 | in a run where no two live sockets of a session go by one workspace id at once, the target of an id is the live agent whose latest hello named it, or nobody |
| RelayHubReachability.AllReachableIff | relay/src/server.ts:336-367 | throughout a run every live agent that said hello is registered under its id exactly when throughout the run no two live sockets of a session go by one id |
| RelayHubHolders.RegisteredIffSaidLast | relay/src/server.ts:336-497 | in any run, collisions or not, a socket is registered under an id exactly when it said the latest hello for it and no socket going by that id has closed or taken another id since |
| RelayHubHolders.StepHolder | relay/src/server.ts:336-497 | what any one event does to the holder of an id: a hello takes it, a close or rename of a socket going by it frees it, nothing else touches it |
| RelayHubReachability.CloseKeepsOthersIff | relay/src/server.ts:488-490 | a close unregisters no other socket exactly when the entry under the closing agent's id is its own or missing |
| RelayHubReachability.RenameKeepsOthersIff | relay/src/server.ts:336-343 | a hello under a new id unregisters nobody else exactly when the entry under the id it leaves is its own or missing |
| RelayHubReachability.HelloDisplacesIff | relay/src/server.ts:344-345 | a hello displaces the socket under the id it takes exactly when that entry is another socket's |
| RelayHubReachability.HelloKeepsOthersIff | relay/src/server.ts:336-345 | a hello unregisters no other socket at all exactly when the id it takes and the id it leaves are each unheld or its own |
| RelayHubReachability.LateCloseHidesSuccessor | relay/src/server.ts:489-490 | a concrete run: an agent reconnects and says hello before the close of its old socket, which then takes the new socket's entry away |
| RelayHubFrames.FrameReachesLiveAgent | relay/src/server.ts:450-481 | in such a run every frame of a mobile for an id is logged once, with its own fields, and handed to the live agent whose latest hello named the id when that is open, else to nobody |
| RelayHubFrames.MobileFrame | relay/src/server.ts:450-481 | in any reachable state a frame of a mobile of a stored session is logged once, with exactly its own kind, workspace id, target, tool, text and payload, and handed as logged to the open socket registered under its trimmed id, or without an id to the agent of the latest hello, and to nobody else |
| RelayHubFrames.AgentFrame | relay/src/server.ts:450-475 | a frame of an agent that is neither hello nor reply is logged once, under its own workspace id or else its socket's, with the socket's name and path, and handed to the open current mobile |
| RelayHubFrames.StatusFrame | relay/src/server.ts:438-449 | a status frame merges the six fields found in its payload object, or in the frame itself, into the snapshot of its workspace; other forwarded frames leave the snapshots |
| RelayHubFrames.GoneSession | relay/src/server.ts:467-470 | of a session that is gone nothing is forwarded: the socket is closed and that is all |
| RelayHubPresence.AuthFrame | relay/src/server.ts:385-413 | the first frame authenticates exactly when its token verifies and its session is stored; then the socket is handed its role, the workspaces and the history, and everybody who is there; else it is closed and that is all |
| RelayHubPresence.HelloFrame | relay/src/server.ts:330-359 | a hello with an id that is not blank gives the socket that id, its name and path, stores the workspace row, tells the mobile, and then tells mobile and agents in order who is there |
| RelayHubPresence.BlankHello | relay/src/server.ts:416-420 | a hello without an id, or with a blank one, does nothing |
| RelayHubPresence.CloseFrame | relay/src/server.ts:483-504 | a close frees the current mobile if it was that, tells the mobile which workspace went if it had said hello, and tells whoever is left who is there |
| RelayHubPresence.BadFrame | relay/src/server.ts:377-383 | a frame that is not JSON closes its socket and does nothing else |
| RelayHubPresence.FileFrame | relay/src/server.ts:277-305 | HTTP asks exactly the open agent its id addresses, for the path, naming the id when it is not empty; with no such agent nothing happens |
| RelayHubReplies.ReplySettlesIff | relay/src/server.ts:429-436 | an agent's reply settles the request it names exactly when that is pending, and no other; no session is compared |
| RelayHubAsking.StepAsks | relay/src/server.ts:277-305 | one event hands a request to at most one socket, and exactly when it issues it |
| RelayHubAsking.IssuedAsksOne | relay/src/server.ts:277-305 | in every reachable state each issued request was handed to exactly one socket, once, an agent of the session HTTP asked; any other id to nobody |
| RelayHubAsking.OwnRepliesSettle | relay/src/server.ts:277-305 | in a run in which agents reply only to what they were asked, every reply to a pending request settles it and comes from the one socket asked, an agent of the session HTTP asked |
| RelayHubSteps.ForeignKeyFailsIff | relay/src/server.ts:330-449 | a frame ends in a failing foreign key exactly when it is the non-blank hello, or the status for a non-empty workspace, of an agent whose session is gone; nothing is sent, stored or appended then, but a hello has taken its id |
| RelayHubReplies.OtherSessionSettles | relay/src/server.ts:429-436 | a run in which HTTP asks one session for a file and the agent of another session settles the request |
| RelayHubJoining.JoinNeitherLosesNorRepeats | relay/src/server.ts:395-475 | from the step in which it authenticates and as long as it stays the current mobile, a socket is handed the history kept then and every agent message appended for the session since, in order, and no message twice |
| RelayHubJoining.StepKeepsUp | relay/src/server.ts:455-475 | over any one step the current mobile is handed exactly the agent messages of its session that the step appended |
| RelayHubJoining.JoinedHistoryIsNewest | relay/src/server.ts:395-411 | the history a mobile joins with is, up to order among equal timestamps, the 100 newest messages of its session that nothing pruned |
| RelayHubJoining.HubDbIsStoreRun | relay/src/server.ts:455-466 | the tables behind the hub are always those of the store after the operations the hub asked for |
| RelayHubObject.RelayHub.constructor | relay/src/server.ts:37-53 | an object in the start state |
| RelayHubObject.RelayHub.SendFrame | relay/src/server.ts:323-328 | a frame is sent exactly when the socket is known and open |
| RelayHubObject.RelayHub.SendWorkspaceEvent | relay/src/server.ts:323-328 | the frame goes to the current mobile, if any |
| RelayHubObject.RelayHub.BroadcastPeerStatus | relay/src/server.ts:307-321 | the loop sends the status to the mobile and every registered agent in order |
| RelayHubObject.RelayHub.GetSessionPeers | relay/src/server.ts:230-240 | gives the entry of the session, made empty when missing |
| RelayHubObject.RelayHub.ResolveTarget | relay/src/server.ts:361-373 | is the target specification |
| RelayHubObject.RelayHub.ListWorkspaces | relay/src/server.ts:242-263 | the loops build the listed workspaces: registered ones first, then stored ones that are new |
| RelayHubObject.RelayHub.OnConnection | relay/src/server.ts:375-376 | the object takes the connection step and keeps the invariants |
| RelayHubObject.RelayHub.OnPruneTick | relay/src/index.ts:26-28 | the object takes the pruning step and keeps the invariants |
| RelayHubObject.RelayHub.TakeWorkspace | relay/src/server.ts:333-346 | sets the socket's fields and the maps as one hello does |
| RelayHubObject.RelayHub.RegisterAgentWorkspace | relay/src/server.ts:330-359 | the object takes the hello step, with its failure, and keeps the invariants |
| RelayHubObject.RelayHub.Authenticate | relay/src/server.ts:385-413 | the object takes the authentication step on the listing it read, and keeps the invariants |
| RelayHubObject.RelayHub.Forward | relay/src/server.ts:450-481 | the object appends first and sends then, as the step does; a frame of a mobile is logged with its own fields and handed to the open agent it addresses and to nobody else |
| RelayHubObject.RelayHub.StoreStatus | relay/src/server.ts:438-449 | the object stores the snapshot as the step does, failing when the session is gone |
| RelayHubObject.RelayHub.OnMessageEvent | relay/src/server.ts:376-481 | on every frame the object ends in the state of the specified step with its outcome, and keeps the invariants |
| RelayHubObject.RelayHub.LeaveAsAgent | relay/src/server.ts:489-497 | deletes by key, tells the mobile, and recomputes the active id |
| RelayHubObject.RelayHub.OnCloseEvent | relay/src/server.ts:483-504 | on the close event the object ends in the state of the specified step, and keeps the invariants |
| RelayHubObject.RelayHub.RequestAgentPayload | relay/src/server.ts:277-305 | opens a request and sends it exactly when the target is open, and keeps the invariants |
| AgentRequests.RequestsSettleOnce | relay/src/server.ts:277-305 | over every interleaving of requests, replies (late and repeated ones too) and timers: pending is issued minus settled, each pending request has one live timer, none settles twice, each settles within 5000 ms |
| AgentRequests.SettledWithinFiveSeconds | relay/src/server.ts:289-295 | once the clock is more than 5 s past its issue a request has exactly one settlement, at most 5 s after it |
| AgentRequests.StepInv | relay/src/server.ts:429-436 | every event keeps these facts |
| AgentRequests.RequestTable.Open | relay/src/server.ts:288-295 | files the request and arms its timer |
| AgentRequests.RequestTable.OnReply | relay/src/server.ts:429-436 | settles a pending request and clears its timer; ignores any other reply |
| AgentRequests.RequestTable.OnTimeout | relay/src/server.ts:290-293 | settles the request as timed out |
| StoreRuns.HistoryIsNewestSurvivors | relay/src/store.ts:227-322 | after any run, with any clock, a session's rows are the 100 newest by (timestamp, insertion order) of all it appended that no pruning took: trimming on every append equals trimming once at the end |
| StoreRuns.TrimmingOnceWouldDo | relay/src/store.ts:242-275 | without prunings, and with any clock, a session keeps the 100 newest of everything it ever appended, as trimming once at the end would leave |
| StoreRuns.SurvivorsExactly | relay/src/store.ts:279-322 | which those are: appended while the session existed, and not removed by age or with the session by any later operation |
| StoreRuns.HistoryIsLastHundred | relay/src/store.ts:227-322 | with a clock that does not go back a session keeps the last 100 messages appended that are no older than the latest cutoff, under any interleaving of appends and prunings |
| StoreRuns.SurvivorsByCutoff | relay/src/store.ts:279-322 | with such a clock the survivors are what was appended no earlier than the latest cutoff |
| HistoryLog.InsertAscending | relay/src/store.ts:242-263 | rowids follow insertion order although deleted rowids may be used again |
| HistoryLog.NewestAbsorbs | relay/src/store.ts:264-275 | trimming, then appending and trimming, keeps what appending and trimming once keeps |
| HistoryLog.NewestLength | relay/src/store.ts:264-275 | trimming leaves the smaller of the number of rows and 100 |
| HistoryLog.NewestOfRecent | relay/src/store.ts:279-300 | trimming and deleting by age commute |
| HistoryLog.NewestByOrder | relay/src/store.ts:264-275 | what trimming keeps depends on the order of rows, not on the rowids themselves |
| HistoryLog.OfSessionTrim | relay/src/store.ts:264-275 | trimming one session leaves every other session's rows alone |
| HistoryLog.TrimOneMore | relay/src/store.ts:303-321 | trimming session after session equals trimming all of them at once |
| StoreTables.PruneOfSession | relay/src/store.ts:279-322 | what a pruning leaves of a session: its recent rows, trimmed, when the pruning covers it |
| StoreTables.ApplySound | relay/src/store.ts:121-473 | every operation keeps the foreign keys, the rowid order, and at most 100 rows a session |
| StoreTables.RunSound | relay/src/store.ts:121-473 | so does every run |
| StoreRuns.PruneExpiredExactly | relay/src/store.ts:466-473 | the same of the specified effect: which rows of all four tables stay, with the comparison of the expiry and of the age |
| StoreRuns.SessionStoredIff | relay/src/store.ts:121-473 | after any run a session is stored exactly when it was created and no later pruning ran at or past its expiry, which is the one it was created with |
| StoreRuns.SnapshotIsFold | relay/src/store.ts:379-439 | a stored snapshot row is the fold of the payloads upserted for its key since the session began; there is one exactly when there was one payload |
| StoreRuns.StoredSnapshotAccumulates | relay/src/store.ts:379-439 | each field of a stored snapshot is what the latest payload carrying it said, null counting as a value for previewUrl and activeAdapter and as absent for ideState, fileTree and adapters |
| Snapshots.SnapshotAccumulates | relay/src/store.ts:379-439 | the same through any number of encoded and decoded rows |
| Snapshots.AccumulatesUnique | relay/src/store.ts:384-398 | that meaning fixes the snapshot completely |
| Snapshots.MergeIsOneUpsert | relay/src/store.ts:384-398 | two upserts equal one upsert of the merged payload, and merging is associative |
| Snapshots.RowRoundTrip | relay/src/store.ts:10-17 | a snapshot comes back from its columns |
| RelayStoreObject.RelayStore.constructor | relay/src/store.ts:22-30 | an empty, sound store |
| RelayStoreObject.RelayStore.CreateSession | relay/src/store.ts:121-154 | adds the session row |
| RelayStoreObject.RelayStore.PairSession | relay/src/store.ts:209-225 | pairs exactly when the session exists, has not expired and the code is right; else changes nothing |
| RelayStoreObject.RelayStore.AppendEnvelope | relay/src/store.ts:227-277 | inserts and trims, or refuses when the session is gone |
| RelayStoreObject.RelayStore.PruneMessages | relay/src/store.ts:279-322 | the statements and the loop over the sessions have the effect specified for pruning |
| RelayStoreObject.RelayStore.PruneExpiredSessions | relay/src/store.ts:466-473 | exactly the sessions with a later expiry than now stay, unchanged, with their workspaces, snapshots and those messages that are no older than thirty days |
| RelayStoreObject.RelayStore.ListHistory | relay/src/store.ts:324-345 | a permutation of the session's messages sorted by timestamp |
| RelayStoreObject.RelayStore.UpsertWorkspaceRow | relay/src/store.ts:347-362 | stores the row, or fails without a trace when the session is gone |
| RelayStoreObject.RelayStore.ListWorkspaces | relay/src/store.ts:364-377 | the session's workspaces ordered by last seen, then id |
| RelayStoreObject.RelayStore.UpsertWorkspaceSnapshot | relay/src/store.ts:379-421 | merges into the stored snapshot, or fails without a trace when the session is gone |
| RelayStoreObject.RelayStore.GetWorkspaceSnapshot | relay/src/store.ts:423-439 | the decoded row, if any |
| RelayStoreObject.SeenBeforeOrders | relay/src/store.ts:364-371 | last-seen time with id as tie-break is a total order, so the listing is determined |
| RelayStoreObject.LexLessIff | relay/src/store.ts:364-371 | an id comes before another when it is a proper part at its front or has the smaller character where they first differ |
| RelayClientModel.NoTimerOrphaned | agent/src/relay-client.ts:198-236 | in every interleaving of fetch completions, closes, errors, rotations, stop and timers the pending timers are among the two the fields remember, one each; until stop they are exactly those |
| RelayClientModel.RotationDue | agent/src/relay-client.ts:208-216 | a rotation armed at t is due at max(expiresAt - 60 s, t + 1 s) exactly when that is within 2^31 - 1 ms; beyond that setTimeout makes it 1 ms |
| RelayClientModel.RotationFollowsSession | agent/src/relay-client.ts:208-236 | until stop a full session and a pending rotation go together, and the rotation is that session's |
| RelayClientModel.StepInv | agent/src/relay-client.ts:75-374 | every event keeps these facts |
| RelayClientModel.PartialOnlyFromLateStatus | agent/src/relay-client.ts:98-123 | the session turns into one without an expiry exactly when a status arrives after the session was dropped |
| RelayClientModel.StatusOutlivesSession | agent/src/relay-client.ts:98-123 | that happens in every running client whose rotation falls due while a status is being read |
| RelayClientModel.SuchAClient | agent/src/relay-client.ts:98-123 | and such a client is reachable |
| RelayClientSteps.ArmsExactly | agent/src/relay-client.ts:198-216 | which timer an event arms and when it is due: a retry after 15 s, a reconnect after 2 s, a rotation a minute before the expiry, in a second at the soonest, or in a millisecond beyond 31 bits |
| RelayClientSteps.CreationBegins | agent/src/relay-client.ts:147-160 | a creation asks about the session of the file exactly when that has not expired, and else for a new one |
| RelayClientSteps.FrameRefreshes | agent/src/relay-client.ts:98-107 | a frame on which the status is reported refreshes the session there is, as long as that has not expired |
| RelayClientSteps.StoresObtained | agent/src/relay-client.ts:147-196 | a session is stored exactly when one was obtained, and is the one obtained |
| RelayClientStop.StopIsFinalIff | agent/src/relay-client.ts:81-88 | stop clears every timer; unless start is called again none is ever pending after it exactly when nothing in flight and no socket that is still there can arm one: the condition names which tasks, sockets and fields can |
| RelayClientStop.ClosedSocketReconnects | agent/src/relay-client.ts:355-374 | stopping a connected client is not final: its own close event arms a reconnect two seconds later |
| RelayClientStop.StoppedClientCreates | agent/src/relay-client.ts:98-123 | nor when a timer is still remembered: a frame of a socket that is open refreshes the session, and a refusal has the next one created |
| RelayClientModel.CrashesIff | agent/src/relay-client.ts:337-345 | a step ends the process exactly when it enters connect with a session that has no URL and no handler above it (after a retry's or a rotation's creation, or from a reconnect), or when a socket opens while another one, still in its handshake, is the current one |
| RelayClientProgress.NeverDormant | agent/src/relay-client.ts:147-236 | once started and until stopped a client has something in flight or a timer pending as long as its process lives; with nothing in flight no timer is pending exactly when the session has no expiry and no reconnect is pending; a pending retry or reconnect is due within 15 or 2 seconds |
| RelayClientProgress.LateStatusCrashes | agent/src/relay-client.ts:212-236 | every running client whose rotation falls due while a status is being read has a run in which a failing creation is followed by the connect that throws |
| RelayClientProgress.CrashIsReachable | agent/src/relay-client.ts:75-236 | such a run exists from the start |
| RelayClientRuns.StoppedClientReconnects | agent/src/relay-client.ts:81-88 | a run from the start: a connected client with nothing in flight is stopped, and is connected again two seconds after its socket closed |
| RelayClientRuns.StoppedClientCreatesSession | agent/src/relay-client.ts:81-123 | a run from the start: a client is stopped with nothing in flight, no timer pending and one remembered, and a frame of its open socket has it create and keep its next session |
| RelayClientRuns.OvertakenSocketCrashes | agent/src/relay-client.ts:337-374 | every client whose current socket is in its handshake while an older one is still there has a run in which the older one closes, the reconnect replaces the current one, and the send throws when that one opens |
| RelayClientRuns.OvertakenSocketRun | agent/src/relay-client.ts:212-374 | such a run exists from the start, right after a rotation, with a session that has its URL |
| RelayClientRuns.RenewalRun | agent/src/relay-client.ts:208-236 | what a rotation leaves when its creation succeeds: the next session, its own rotation, and a new socket in its handshake beside the old one |
| RelayClientRuns.FarSessionsRotateForEver | agent/src/relay-client.ts:208-216 | for any number of sessions that all live beyond a 31-bit timeout there is a run from the start that rotates them one millisecond apart |
| RelayClientRuns.Round | agent/src/relay-client.ts:208-236 | one such round: the rotation fires, the next session is created, and its rotation is due a millisecond later |
| RelayClientObject.RelayClient.constructor | agent/src/relay-client.ts:67-73 | a client in the start state |
| RelayClientObject.RelayClient.Start | agent/src/relay-client.ts:75-79 | takes the start step and keeps the invariants |
| RelayClientObject.RelayClient.StopClient | agent/src/relay-client.ts:81-88 | takes the stop step; no timer is pending |
| RelayClientObject.RelayClient.RefreshSessionState | agent/src/relay-client.ts:98-107 | refreshes up to the fetch |
| RelayClientObject.RelayClient.OnStatusFrame | agent/src/relay-client.ts:130-132 | a frame on which the status is reported refreshes the session first |
| RelayClientObject.RelayClient.RunEnsureSession | agent/src/relay-client.ts:147-160 | restores when the file holds a live session, else creates one |
| RelayClientObject.RelayClient.RunScheduleRetry | agent/src/relay-client.ts:198-206 | arms a retry in 15 s unless the field is set |
| RelayClientObject.RelayClient.RunScheduleReconnect | agent/src/relay-client.ts:368-374 | arms a reconnect in 2 s unless the field is set or there is no session |
| RelayClientObject.RelayClient.RunScheduleSessionRotation | agent/src/relay-client.ts:208-216 | replaces the pending rotation by one for the new expiry |
| RelayClientObject.RelayClient.InstallSession | agent/src/relay-client.ts:174-190 | stores the session and replaces the pending rotation by its own |
| RelayClientObject.RelayClient.RotateSession | agent/src/relay-client.ts:218-236 | clears both timers, drops the session and creates the next |
| RelayClientObject.RelayClient.Connect | agent/src/relay-client.ts:337-341 | opens a socket when there is a session with a URL; without a URL it throws, which ends the process unless caught |
| RelayClientObject.RelayClient.OnResume | agent/src/relay-client.ts:147-196 | resumes any awaiting method with any outcome as the step does |
| RelayClientObject.RelayClient.OnTimer | agent/src/relay-client.ts:200-216 | runs the callback of a timer that fired |
| RelayClientObject.RelayClient.OnSocketOpen | agent/src/relay-client.ts:342-345 | takes the open step, with its throw |
| RelayClientObject.RelayClient.OnSocketError | agent/src/relay-client.ts:362-365 | takes the error step: the current socket is closed, whichever failed |
| RelayClientObject.RelayClient.OnSocketClose | agent/src/relay-client.ts:355-360 | takes the close step |
| LineFraming.ChunkingIndependent | extension/src/ipcClient.ts:52-66 | from any buffer and for every split into chunks, the delivered lines are the newline-terminated lines of buffer and stream, and the buffer ends as the newline-free rest |
| LineFraming.SplitLossless | extension/src/ipcClient.ts:54-55 | the lines with their newlines and the rest are the text |
| LineFraming.SplitUnique | extension/src/ipcClient.ts:54-55 | and no other lines and rest are |
| LineFraming.FramingRoundTrip | agent/src/ipc.ts:89-104 | any chunking of the encoding of a message list decodes to that list and leaves nothing behind |
| LineFraming.LeftoverJoinsFirstLine | extension/src/ipcClient.ts:52-66 | what an earlier connection left unfinished joins the first line of the next one; every later message arrives |
| LineFraming.ReconnectIntactIff | extension/src/ipcClient.ts:52-66 | so a message list arrives intact exactly when the leftover and the first message still read as that message; no leftover will do |
| LineFraming.LeftoverCosts | extension/src/ipcClient.ts:52-66 | of messages that are objects, any part of a message left in the buffer costs the first message of the next connection and that one only; nothing left costs nothing |
| LineFraming.BrokenConnection | extension/src/ipcClient.ts:42-74 | a connection that breaks at any byte and the next one, in any chunks: of the first exactly the messages whose newline arrived are delivered, of the second all but the first, which is delivered too exactly when the break was between two messages |
| LineFraming.ParseLines | extension/src/ipcClient.ts:56-65 | the loop delivers the value of every line that is not blank and is JSON, in order |
| LineFraming.IpcClient.OnData | extension/src/ipcClient.ts:52-66 | one chunk has the specified effect on buffer and lines |
| LineFraming.IpcClient.OnConnect | extension/src/ipcClient.ts:42-50 | connects, keeps the old buffer, and registers |
| LineFraming.IpcClient.OnClose | extension/src/ipcClient.ts:71-74 | disconnects and keeps the buffer |
| LineFraming.IpcClient.Send | extension/src/ipcClient.ts:96-106 | writes one line, or drops the message without a connection |
| LineFraming.AgentConnection.OnData | agent/src/ipc.ts:98-112 | one chunk has the specified effect on buffer and lines |
| LineFraming.Feed | agent/src/ipc.ts:98-112 | a connection fed the encoding of a list in any chunks has handled exactly that list |
| WorkspaceNames.SlugIs | agent/src/workspace.ts:35-44 | what any name slugs to: the letters and digits of its decomposed, trimmed text in order, with one dash between two of them exactly when white space, an underscore or a dash is between them, and "project" when there are none |
| WorkspaceNames.SlugIsShaped | agent/src/workspace.ts:35-44 | a slug is not empty, over [A-Za-z0-9-], without a dash at either end or two in a row |
| WorkspaceNames.SlugOfSlug | agent/src/workspace.ts:35-44 | a text of that shape is its own slug |
| WorkspaceNames.SlugifyIdempotent | agent/src/workspace.ts:35-44 | slugifying twice is slugifying once |
| WorkspaceNames.SanitizeGivesId | agent/src/workspace.ts:46-49 | sanitizing gives an id or nothing, and leaves an id as it is |
| WorkspaceIdentity.ReadAfterPersistIff | agent/src/workspace.ts:51-78 | for every prior text of the file: reading gives the persisted id back exactly when the file had no entry, or the entry written starts a line as reading splits them with only white space after it, or a later line says the same |
| WorkspaceIdentity.ReadReplaced | agent/src/workspace.ts:69-73 | what reading gives after an entry was replaced: the new id when it is visible, else what the lines after it say |
| WorkspaceIdentity.ReadAppended | agent/src/workspace.ts:76-77 | an appended entry is always read |
| WorkspaceIdentity.LfReadsBack | agent/src/workspace.ts:51-78 | with LF line ends the id is always read back |
| WorkspaceIdentity.CrlfVisibleIff | agent/src/workspace.ts:70-71 | with CRLF line ends a replaced entry is visible exactly when only white space comes before it |
| WorkspaceIdentity.CrlfLosesId | agent/src/workspace.ts:70-71 | a two-line CRLF file after which no id is read, whatever id was written |
| WorkspaceIdentity.ResolveIsFixpointIff | agent/src/workspace.ts:97-106 | a later resolve gives the same id in any environment exactly when the entry the first one wrote settles |
| WorkspaceIdentity.ResolvedFirstFree | agent/src/workspace.ts:80-106 | without an id in the file, the id is the slug of the first of variable, editor folder, configured name, project directory and working directory whose slug is not reserved, or "project" |
| WorkspaceIdentity.EntryNames | agent/src/workspace.ts:24-33 | an entry names the slug of its text without a pair of quotes, and nothing when that is reserved |
| WorkspaceIdentity.ResolvedIsId | agent/src/workspace.ts:97-106 | the resolved id can be stored and read: slug-shaped and not reserved |
| WorkspaceIdentity.FolderNameOnlyWhenReserved | agent/src/workspace.ts:97-103 | without an id in the file a blank variable gives "project", and the folder names are asked only when the variable slugs to a reserved name |
| WorkspaceIdentity.Environment.ReadWorkspaceId | agent/src/workspace.ts:51-60 | the loop gives the sanitized value of the first matching line |
| WorkspaceIdentity.Environment.PersistWorkspaceId | agent/src/workspace.ts:62-78 | the file after persisting |
| WorkspaceIdentity.Environment.ResolveWorkspaceIdentity | agent/src/workspace.ts:97-115 | the id of the file, or the slug of the first candidate that is free; the variable and the file after resolving |
| TerminalFormat.TokenizeText | nuxt-ui/composables/formatTerminalMessage.ts:43-84 | the nested loops give the blocks of the one tiling of the lines |
| TerminalFormat.FencedCode | nuxt-ui/composables/formatTerminalMessage.ts:56-65 | the inner loop takes the lines up to the closing fence, or to the end |
| TerminalFormat.IndentedCode | nuxt-ui/composables/formatTerminalMessage.ts:68-76 | the inner loop takes a maximal run of indented lines, one indent off each |
| TerminalFormat.LineKinds | nuxt-ui/composables/formatTerminalMessage.ts:2-3 | which lines open a fence, which are indented, and what the indent leaves |
| TerminalFormat.BlocksAre | nuxt-ui/composables/formatTerminalMessage.ts:43-84 | one block for each stretch, code when it is fenced or indented, made of the lines it shows |
| TerminalFormat.SpansTile | nuxt-ui/composables/formatTerminalMessage.ts:43-84 | the blocks come from stretches that together are the lines: text stretches not empty and never adjacent, indented runs maximal, only the last fence open |
| TerminalFormat.TilingUnique | nuxt-ui/composables/formatTerminalMessage.ts:43-84 | no other tiling of the lines is like that |
| TerminalFormat.LinesConserved | nuxt-ui/composables/formatTerminalMessage.ts:43-84 | every line is shown once and in order, fence lines dropped, exactly one indent off each indented line outside a fence |
| TerminalText.StrippedIs | nuxt-ui/composables/formatTerminalMessage.ts:26-28 | a text is cut in one way into ANSI sequences and single other characters, from the left and as early as possible, and stripping leaves the others |
| TerminalText.CutUnique | nuxt-ui/composables/formatTerminalMessage.ts:26-28 | there is no other such cut |
| TerminalText.NothingToStrip | nuxt-ui/composables/formatTerminalMessage.ts:26-28 | a text without ESC stays as it is |
| TerminalText.ReturnsAre | nuxt-ui/composables/formatTerminalMessage.ts:107-108 | a carriage return, with or without a newline after it, becomes one newline; all else stays |
| TerminalText.RunsAre | nuxt-ui/composables/formatTerminalMessage.ts:30-32 | every run of more than two newlines becomes two; all else stays |
| TerminalText.NormalizedIff | nuxt-ui/composables/formatTerminalMessage.ts:107-108 | the text that is cut into lines is what these three leave, trimmed, and nothing else is |
| Texts.TrimIs | nuxt-ui/composables/formatTerminalMessage.ts:108-108 | trimming leaves what is between the white space at the ends |
| TerminalText.CompressedShape | nuxt-ui/composables/formatTerminalMessage.ts:30-32 | compressing takes newlines only and leaves no three in a row |
| TerminalText.CompressKeeps | nuxt-ui/composables/formatTerminalMessage.ts:30-32 | a text without three in a row stays as it is |
| TerminalFormat.NormalizedLines | nuxt-ui/composables/formatTerminalMessage.ts:107-111 | the lines that are tokenized never have two blank ones in a row |
| TerminalFormat.FormattedMessage | nuxt-ui/composables/formatTerminalMessage.ts:107-111 | of a formatted message: tiling, conservation, and no text or fenced block with two blank lines in a row |
| TerminalFormat.FormatTerminalMessage | nuxt-ui/composables/formatTerminalMessage.ts:107-111 | the blocks of the one text that cutting at returns, stripping, trimming and shortening runs leaves; none when nothing is left |
| TerminalFormat.CreateLine | nuxt-ui/composables/formatTerminalMessage.ts:34-41 | the raw line, and as preview the line itself or its first 80 characters, trimmed, with an ellipsis |
| PathSegments.SplitTerminalInlineSegments | nuxt-ui/composables/formatTerminalMessage.ts:86-105 | the segments join to the text, text and path alternate, none is empty unless the text is, and the paths are the matched ones where they were matched |
| PathSegments.PathFound | nuxt-ui/composables/formatTerminalMessage.ts:91-95 | lastIndexOf finds the captured path inside its match, since a path has a slash and a suffix has none |
| FileFilter.IncrementalSearch | nuxt-ui/pages/code.vue:95-108 | filtering the result of a query by a longer one gives what filtering the tree by the longer one gives |
| FileFilter.SearchIdempotent | nuxt-ui/pages/code.vue:95-108 | filtering twice by one query is filtering once |
| FileFilter.FilesFound | nuxt-ui/pages/code.vue:95-108 | the files found are exactly the files that match by path or name, in order |
| FileFilter.FoundIff | nuxt-ui/pages/code.vue:95-108 | a file is found exactly when its path or its name, in lower case, has the query in it, trimmed and in lower case |
| FileFilter.KeptIffHit | nuxt-ui/pages/code.vue:99-107 | a node stays exactly when something in it matches |
| FileFilter.FilterKeeps | nuxt-ui/pages/code.vue:96-102 | normalising the query again in the recursion changes nothing |
| CliRegistryModel.PersistLoadRoundTrip | agent/src/cliRegistry.ts:59-92 | loading into a fresh registry what persist wrote gives the same entries in order with the same default, builtin detection aside, although a custom default id cannot be resolved when it is read |
| CliRegistryModel.AtMostOneDefault | agent/src/cliRegistry.ts:59-192 | over every run of reports, detections, choices, additions, removals, failed writes and restarts at most one tool is the default |
| CliRegistryModel.StepInv | agent/src/cliRegistry.ts:59-192 | every operation keeps the registry well formed and its file loadable |
| CliRegistryModel.ResolvesTo | agent/src/cliRegistry.ts:146-152 | an id is looked up trimmed and in lower case among the tools there are; "claude" is another name of "claude-code" |
| CliRegistryModel.ReportIs | agent/src/cliRegistry.ts:95-122 | a report sets every flag, leaves a default there is, and else makes the first detected tool the default; detecting sets the flags and nothing else |
| CliRegistryModel.RestartKeeps | agent/src/cliRegistry.ts:59-92 | a restart after a saved change finds the registry as it was |
| CliRegistryModel.DefaultIffDetected | agent/src/cliRegistry.ts:132-138 | there is a default exactly when some tool was detected; it was detected, and is the chosen one when that was |
| CliRegistryModel.CliRegistry.constructor | agent/src/cliRegistry.ts:52-57 | the four builtins in order |
| CliRegistryModel.CliRegistry.LoadConfig | agent/src/cliRegistry.ts:59-78 | the loop over the customs has the specified effect |
| CliRegistryModel.CliRegistry.Persist | agent/src/cliRegistry.ts:80-92 | the file after a write that may fail |
| CliRegistryModel.CliRegistry.ApplyExtensionReport | agent/src/cliRegistry.ts:111-122 | marks and, without a default, picks the first detected |
| CliRegistryModel.CliRegistry.MarkDetected | agent/src/cliRegistry.ts:113-115 | the loop sets every flag from the report |
| CliRegistryModel.CliRegistry.ClearDefaults | agent/src/cliRegistry.ts:162-162 | the loop takes every default flag back |
| CliRegistryModel.CliRegistry.ChooseDefault | agent/src/cliRegistry.ts:159-166 | exactly the resolved tool becomes the default, or nothing changes |
| CliRegistryModel.CliRegistry.AddCustomCli | agent/src/cliRegistry.ts:168-183 | adds or replaces the custom entry and saves |
| CliRegistryModel.CliRegistry.RemoveCustomCli | agent/src/cliRegistry.ts:185-191 | removes a custom entry only, and saves |
| CodexAdapterModel.TextsConserved | agent/src/adapters/codex-cli.ts:19-48 | over every run of sends, output, exits and respawns the non-empty texts sent are those written followed by those pending, in order and once each; ready means none pending; the trust question is answered at most once |
| CodexAdapterModel.StepInv | agent/src/adapters/codex-cli.ts:19-48 | every event keeps these facts |
| CodexAdapterModel.ChunkExactly | agent/src/adapters/codex-cli.ts:28-48 | a chunk while a terminal is in use: the trust question is answered the first time; else one of the three prompts makes the adapter ready the first time and writes exactly the non-empty waiting texts, in order; any other chunk does nothing |
| CodexAdapterModel.ReadyIff | agent/src/adapters/codex-cli.ts:37-42 | the adapter is ready exactly from the first such chunk on |
| CodexAdapterModel.WritesExactly | agent/src/adapters/codex-cli.ts:19-48 | what one event writes and what then waits: a text sent to a ready adapter is written at once |
| CodexAdapterModel.OneTerminalIff | agent/src/adapters/pty-adapter.ts:24-77 | throughout a run the one live terminal is the one in use exactly when destroy is only called while none is in use |
| CodexAdapterModel.OwnTerminalStep | agent/src/adapters/pty-adapter.ts:24-77 | from a state in which it is, exactly a destroy of the terminal in use leads out |
| CodexAdapterModel.ExitIsOfCurrent | agent/src/adapters/pty-adapter.ts:39-43 | in such a run every exit is that of the terminal in use |
| CodexAdapterModel.LateExitForgetsNewTerminal | agent/src/adapters/pty-adapter.ts:39-43 | after destroy and a respawn the late exit of the old terminal takes the new one away |
| CodexAdapterModel.CodexCliAdapter.Spawn | agent/src/adapters/pty-adapter.ts:24-30 | a new terminal is the one in use |
| CodexAdapterModel.CodexCliAdapter.SendText | agent/src/adapters/codex-cli.ts:19-26 | spawns when needed, then writes or queues the text |
| CodexAdapterModel.CodexCliAdapter.OnDataChunk | agent/src/adapters/codex-cli.ts:28-48 | answers the trust question once; turns ready exactly on one of the three prompts, and its loop then writes exactly the non-empty waiting texts, in order |
| CodexAdapterModel.CodexCliAdapter.OnData | agent/src/adapters/pty-adapter.ts:33-37 | takes the step for a chunk of any terminal |
| CodexAdapterModel.CodexCliAdapter.OnExit | agent/src/adapters/pty-adapter.ts:39-43 | clears the terminal in use, whichever exited |
| CodexAdapterModel.CodexCliAdapter.DestroyTerminal | agent/src/adapters/pty-adapter.ts:70-77 | clears the terminal in use |
| TerminalNames.NextTerminalName | nuxt-ui/pages/chat.vue:205-210 | the loop ends after at most one try more than there are names, at the least index from 1 whose name is free; the name is "DevBridge " and the digits of that index |
| TerminalNames.DecimalInjective | nuxt-ui/pages/chat.vue:208-209 | different numbers read differently in decimal |
| TerminalNames.DecimalDenotes | nuxt-ui/pages/chat.vue:208-209 | the digits written stand for the number, without a zero in front |
| TerminalNames.TakenInARow | nuxt-ui/pages/chat.vue:208-208 | pigeonhole: the names taken in a row from 1 are no more than the names there are |

## Left out

- Express routes, CORS, token signing, pairing-code randomness and UUIDs: verified claims, fresh ids and the clock are inputs of the steps.
- SQLite itself: each statement is its effect on a table; a session's rows go with it; a failing foreign key is an outcome of the step.
- Reading and writing the columns of a message row: rows hold envelopes as they are, so `payload` is not encoded and decoded there; snapshot columns are.
- The order SQLite gives to equal timestamps: a history listing is any permutation of the session's rows sorted by timestamp.
- Socket objects on the heap: a socket is an id and its fields are a record in a map of the hub, so aliasing of socket objects is not modelled.
- Frames that are JSON but not an object, or whose `type` is neither a string nor absent.
- Timestamps and expiries that are not integers; string comparison and lengths are over Dafny characters, not UTF-16 units.
- The regular-expression engine, Unicode decomposition and lower-casing: functions with the few properties that are needed, stated as hypotheses; the expressions of the `.env` file, the slug and the ANSI sequences are modelled character by character.
- PathSegments.SplitTerminalInlineSegments: takes the list of matches, of which it needs only that each has a lead of at most one character (none only at the start), a path with a slash and a suffix without, because the character classes of the expression play no other part.
- JSON.parse and JSON.stringify: a writer and a reader that undo each other, whose text is one line that is not blank (RFC 8259, section 7); where it matters, the text of an object after a part of another is not a JSON text (section 2).
- RelayClientObject.RelayClient.OnResume: an outcome stands for everything a fetch can give; responses are taken to have the fields the code reads, because the code does not check them; whether a WebSocket takes the URL is a field of the session.
- RelayClientModel.CrashesIff: is about the exceptions of the client's own calls; what the adapters, the file service and the channel to the extension throw while a status is put together is not part of this model.
- The order of the microtask queue: what follows an await may be resumed later than the queue would; the runs that are shown keep to its order.
- The client without relay URLs: the agent builds no client then (agent/src/index.ts:37-52).
- What the relay client sends, its dispatch of incoming messages other than that two kinds have the session refreshed, `connected`, `lastError` and the other display fields of its session.
- Timers fire at any time at or after they are due; in the request table the clock does not pass a timer that is due.
- RelayHubReachability.LiveAgentsReachable: holds for runs without two live sockets under one id; AllReachableIff shows that these are all the runs for which it can hold.
- What becomes of the relay's process when a foreign key fails inside a frame handler: the step ends with that outcome and runs go on from there, so the theorems also cover a process that survives it.
- What the agent's process does after an exception nobody catches: it ends, and nothing more happens in the run.
- `updateSessionTokens`, `setPairingCode`, `findByToken`, `listSessions`, `listWorkspaceSnapshots` and `deleteWorkspaceSnapshot` of the store: single statements that touch none of the state the theorems are about.
- The message queue and the adapters' output events, `outputBuf` scanning for a preview URL, `runAction`'s joining of words, the adapter manager, quick replies and question detection.
- Reconnect back-off of the extension and its pairing-code request.
- Which file the registry writes and whether its directory exists: a write either replaces the file or fails.
- Everything in the user interface but the functions named above.
