# Verified models of the CloudeAgent control plane and runtime

CloudeAgent gives every user a sandbox with an agent in it. A control plane creates, suspends, wakes
and deletes the sandboxes, a gateway routes to them, and inside each one a runtime drives a QwenPaw
kernel over JSON-RPC 2.0 and keeps the conversation in a log. This project models the parts of that
system whose correctness does not show in any one function, and proves what they promise together.

- **The ACP client** (`RequestKeys`, `AcpRegions`, `AcpProtocol`, `AcpGuarantees`). Callers, reader
  loops and process watchers share `pending`, `nextID`, `sessions` and `handlers` under one mutex.
  `AcpRegions.ACPServer` performs the locked regions on mutable fields; `AcpProtocol` interleaves them
  with the unlocked channel operations as a step relation with any number of callers and processes,
  and carries an inductive invariant. `AcpGuarantees` holds the theorems.
- **The ACP client seen by one caller** (`AcpPrompt`). Starting, restarting, hot-switching and
  prompting, where every request ends in a reply, an error, a crash, a write fault or a timeout. `AcpEndings`
  ties these endings to the protocol's.
- **The sandbox lifecycle** (`Store`, `Backends`, `Manager` on the heap; `Lifecycle` on values;
  `LifecycleSafety`, `LifecycleOutcomes`, `LifecycleStrays`, `LifecycleHistory`, `LifecycleAgreement` about
  all runs; `FailingRuns` with the runs that fail). The classes are the manager, the memory store with its
  defensive copies, the config cache, the e2b provider, the platform behind it, and the gateway's
  registry. Each manager method is proved equal to a function on one value, including its replies, for
  every outcome of every external call.
- **The reaper and the relays** (`Reaper`, `Relay`, `RelayReaping`, with `LifecycleActivity`) on the same state.
  A scan is a sequence of steps between which anything else may happen; the heap version serves requests there.
- **Headline filtering** (`HeadlinePattern`, `HeadlineText`, `HeadlineNormalForm`, `HeadlineFilter`,
  `HeadlineAgreement`, `EngineChat`). A regular expression over the whole text against a buffer
  machine over pieces of it.
- **The conversation log** (`ConversationLog`, `Conversation`). An append-only file whose indexes are
  derived from itself, written by sessions that come and go, and read by an in-place filter. `Selections`
  says what it means to pick elements, here and in the headline filter.

## Reading guide

A step of the ACP protocol is one locked region or one channel operation. Its one assumption on the
peer is that a process answers only ids that were written to it; it may answer twice, late, or after
it was replaced. No bound on ids is assumed: safety holds for all of them, and where ids from one
million on behave differently the statements say so exactly.

An `Env` says how every external call of one lifecycle operation ends and what the clock shows. A
`Lawful` run gives no sandbox id out twice. Theorems that need more name it: `ReliableKills` (Connect
fails only on a sandbox that is gone, and Kill works after Connect) and `Reliable` (the gateway's
registry answers, the Kill of Delete works after Connect, the platform does nothing by itself).

## Where the code differs from what one would expect

- `pending` is keyed by the rendering of an int64 on the way out and of a float64 on the way in. The
  two agree exactly below 1,000,000 (`RequestKeys.KeysAgreeIff`), and the reply to request 1,000,000
  is dropped while its caller waits (`AcpGuarantees.MillionthReplyIsLost`).
- `killLocked` leaves `pending` alone, and the watcher of the killed process finds another process, or
  none, in place. So a restart answers no request in flight; only its own context ends it, or a crash
  of the next process (`AcpGuarantees.UnfiledIff`).
- A failed write is no transport fault, although the process is killed after it: `Prompt` does not retry
  (`AcpPrompt.ACPServer.Request`, `RetriesExactlyAfter`).
- Killing through the provider connects first and so resumes a paused sandbox. If the kill then fails,
  the user stays recorded as Suspended while the sandbox runs (`LifecycleAgreement.DeleteAgreesIff`,
  `FailingRuns.FailedKillDisagrees`). A failed connect counts as gone and loses a live sandbox
  (`LifecycleStrays.StepKeepsNoStraysIff`, `FailingRuns.FailedConnectLeaks`).
- `stripHeadlineText` trims every Unicode space but the pattern allows only blanks around a headline.
  Stripped text can therefore contain a headline, and stripping is not idempotent on every text. The
  exact condition is `TrimExposes`; it never holds when the text's only space is blanks and newlines
  (`HeadlineNormalForm.HeadlineSurvivesIff`, `StripIdempotentIff`, `PlainTextIsNormal`).
- The reaper holds no lock from reading a user's activity to suspending him, and `Suspend` checks his status
  only. A relay that opens in between does not save him (`RelayReaping.OpenedTooLate`). Nor does an open relay
  under which the instance was deleted and made again, because its count went with the activity record
  (`DeletedUnderRelay`). These two cases are all (`ReapedUnderOpenRelayIff`).
- The comment on the memory store says that a user without activity counts as never active; the code
  says active right now, so such a user is reaped only if the clock moves by the whole idle timeout
  between two reads of it (`Reaper.NoRecordNoReaping`).

## Model

| member | source | states |
|---|---|---|
| RequestKeys.KeysAgreeIff | cloud-backend/pkg/agentengine/qwenpaw/acp.go:421-424 | A filed channel is found by a reply exactly if the reply answers that request and its id is below one million, for all pairs of ids, with float64 rounding modelled. |
| RequestKeys.KeyOutInjective | cloud-backend/pkg/agentengine/qwenpaw/acp.go:496-499 | Two requests never share an entry of `pending`. |
| RequestKeys.DecimalDenotes | cloud-backend/pkg/agentengine/qwenpaw/acp.go:499 | The rendering of an id, read as a decimal number, is the id, and it has no leading zero. |
| AcpRegions.ACPServer.Install | cloud-backend/pkg/agentengine/qwenpaw/acp.go:185-190 | Installing a process changes `proc` and `connected` and resets neither ids nor entries. |
| AcpRegions.ACPServer.Request | cloud-backend/pkg/agentengine/qwenpaw/acp.go:490-506 | Without a process a request is refused and nothing changes; with one it takes the next id and files an empty channel under it, and a failed write takes the entry back and disconnects. |
| AcpRegions.ACPServer.Take | cloud-backend/pkg/agentengine/qwenpaw/acp.go:421-425 | Looking a reply up and forgetting its entry are one region. |
| AcpRegions.ACPServer.Abandon | cloud-backend/pkg/agentengine/qwenpaw/acp.go:509-513 | A caller whose context ended takes back its own entry and nothing else. |
| AcpRegions.ACPServer.WatchExit | cloud-backend/pkg/agentengine/qwenpaw/acp.go:367-394 | The watcher's region: nothing for a replaced process, and otherwise all tables emptied and every filed empty channel answered. |
| AcpRegions.ACPServer.Drain | cloud-backend/pkg/agentengine/qwenpaw/acp.go:376-386 | The drain loop sends once to each filed channel that is empty, in whatever order it meets the entries. |
| AcpRegions.ACPServer.Kill | cloud-backend/pkg/agentengine/qwenpaw/acp.go:710-738 | Killing forgets process, sessions and handlers and keeps `pending`. |
| AcpRegions.ACPServer.DropSession | cloud-backend/pkg/agentengine/qwenpaw/acp.go:648-655 | Pruning the session table while walking it removes exactly the keys of the closed session. |
| AcpProtocol.StepKeeps | cloud-backend/pkg/agentengine/qwenpaw/acp.go:367-523 | Every locked region and every channel operation keeps the invariant of callers, entries, channels and deliveries. |
| AcpProtocol.ReachableInv | cloud-backend/pkg/agentengine/qwenpaw/acp.go:367-523 | The invariant holds in every reachable interleaving, crashes and restarts included. |
| AcpGuarantees.NoLostOrDoubledReply | cloud-backend/pkg/agentengine/qwenpaw/acp.go:490-523 | Each waiting caller's reply is in exactly one of three places; no channel is sent two messages; no two readers hold one channel. |
| AcpGuarantees.SendNeverBlocks | cloud-backend/pkg/agentengine/qwenpaw/acp.go:421-430 | The unlocked send of `dispatch` always finds room. |
| AcpGuarantees.DrainReachesEveryEntry | cloud-backend/pkg/agentengine/qwenpaw/acp.go:376-385 | The default branch of the drain loop is never taken. |
| AcpGuarantees.CorrelationAcrossRestarts | cloud-backend/pkg/agentengine/qwenpaw/acp.go:396-430 | A caller that got a peer's reply got the one to its own id, read from the process its request was written to. |
| AcpGuarantees.IdsOnlyGrow | cloud-backend/pkg/agentengine/qwenpaw/acp.go:496-497 | Over any run ids and process numbers only grow and a request keeps the process it was written to. |
| AcpGuarantees.ReplyTakenIff | cloud-backend/pkg/agentengine/qwenpaw/acp.go:421-430 | A reply line is carried to its caller exactly if the request is filed and its id is below one million; otherwise a filed request stays filed. |
| AcpGuarantees.ReadReplyArrives | cloud-backend/pkg/agentengine/qwenpaw/acp.go:421-430 | A reply that was read for a waiting request below one million is on its way and each remaining step to its caller is enabled. |
| AcpGuarantees.CrashDrain | cloud-backend/pkg/agentengine/qwenpaw/acp.go:371-387 | When the current process exits every filed request gets a process-gone reply, others keep theirs, and all tables end empty. |
| AcpGuarantees.StaleWatcherChangesNothing | cloud-backend/pkg/agentengine/qwenpaw/acp.go:371-393 | Over every run: once a process was replaced or killed it never becomes current again, and its watcher changes nothing whenever it fires. |
| AcpGuarantees.KillLeaves | cloud-backend/pkg/agentengine/qwenpaw/acp.go:700-738 | Killing or stopping a process clears what belonged to it and touches no request: entries, channels, callers, ids and carried replies stay. |
| AcpGuarantees.SpawnLeaves | cloud-backend/pkg/agentengine/qwenpaw/acp.go:185-190 | A new process takes over unconnected, with the ids, entries, sessions and handlers it finds. |
| AcpGuarantees.RequestsLeaveSessions | cloud-backend/pkg/agentengine/qwenpaw/acp.go:416-523 | Requests and replies leave process, sessions and handlers alone; only a failed write disconnects. |
| AcpGuarantees.DropSessionLeaves | cloud-backend/pkg/agentengine/qwenpaw/acp.go:644-656 | Closing a session forgets all its keys and its handler and nothing else. |
| AcpGuarantees.UnfiledIff | cloud-backend/pkg/agentengine/qwenpaw/acp.go:685-738 | Exactly which steps take a request out of `pending`; a restart is not among them. |
| AcpGuarantees.MillionthReplyIsLost | cloud-backend/pkg/agentengine/qwenpaw/acp.go:421-425 | A concrete run in which the reply to a waiting request is read and reaches nobody. |
| AcpPrompt.ACPServer.Request | cloud-backend/pkg/agentengine/qwenpaw/acp.go:490-523 | One request writes at most once, to the process that was current; how it ended decides what it returns: a transport fault exactly without a process, after a crash, or for an error reply with the code that stands for one, and a write fault for a failed write. |
| AcpPrompt.ACPServer.Start | cloud-backend/pkg/agentengine/qwenpaw/acp.go:166-223 | Starting refuses exactly an empty or mock base URL, succeeds only if the new process answered its initialization, records the configuration it spawned with, and leaves no process behind when the handshake fails. |
| AcpPrompt.ACPServer.EnsureStarted | cloud-backend/pkg/agentengine/qwenpaw/acp.go:156-164 | A connected process is kept, and otherwise one is started. |
| AcpPrompt.ACPServer.SessionID | cloud-backend/pkg/agentengine/qwenpaw/acp.go:553-590 | The session is the one recorded for the key, or one the peer has just made and that was recorded for it and no other key, and never empty; no prompt is written for it; with a connected process that does not crash meanwhile a cached one is returned without traffic; a failure is caused by the last request made. |
| AcpPrompt.ACPServer.MakeSession | cloud-backend/pkg/agentengine/qwenpaw/acp.go:564-589 | A made session was named by the peer, is recorded, and is asked to bypass permissions exactly if the configuration says so. |
| AcpPrompt.ACPServer.CloseSession | cloud-backend/pkg/agentengine/qwenpaw/acp.go:644-656 | Every key of the session and its handler are forgotten, whatever the peer answers, and no other key unless a crash emptied the table. |
| AcpPrompt.ACPServer.CloseSessionLocal | cloud-backend/pkg/agentengine/qwenpaw/acp.go:658-666 | A local key has no session any more, and its handler is gone. |
| AcpPrompt.Engine.NewSession | cloud-backend/pkg/agentengine/qwenpaw/engine.go:186-200 | Whatever fails, the new key is active, the old one has no session, and other keys keep theirs or lose them. |
| AcpEndings.EveryEndIsAnEnding | cloud-backend/pkg/agentengine/qwenpaw/acp.go:508-522 | Every end of a request in the protocol is one of the caller's model, with the same fault, and a reply is that of the request's own process. |
| AcpEndings.EveryEndingIsReached | cloud-backend/pkg/agentengine/qwenpaw/acp.go:490-523 | Every ending of the caller's model is reached by a caller in some run of the protocol. |
| AcpPrompt.ACPServer.PromptOnce | cloud-backend/pkg/agentengine/qwenpaw/acp.go:606-638 | One attempt writes at most one prompt, to a process that was current or is new. The prompt goes to the session of its local key with its message, and its handler is registered for that session when it is written and gone afterwards. |
| AcpPrompt.ACPServer.Ask | cloud-backend/pkg/agentengine/qwenpaw/acp.go:623-635 | The request of an attempt is cancelled on the peer exactly if its context ended and the process can still be written to. |
| AcpPrompt.ACPServer.Restart | cloud-backend/pkg/agentengine/qwenpaw/acp.go:685-698 | A restart ends the old process, writes no prompt, and when it succeeds runs exactly one new process on the current configuration. |
| AcpPrompt.ACPServer.Prompt | cloud-backend/pkg/agentengine/qwenpaw/acp.go:592-604 | The whole history of one call: one attempt, or a transport fault with a failed restart, or a transport fault, a completed restart and one more attempt on a newer process; which endings make it retry. Each prompt goes to the session known for its key by then, with its message and its handler registered; no handler is left. |
| AcpPrompt.AtMostTwoPrompts | cloud-backend/pkg/agentengine/qwenpaw/acp.go:592-638 | At most two prompts are written per call, never two to one process, and two only after a transport fault and a completed restart. |
| AcpPrompt.RetriesExactlyAfter | cloud-backend/pkg/agentengine/qwenpaw/acp.go:592-604 | A restart is tried exactly if the last request of the first attempt found no process, met a crash or was answered with its code; after a failed write the call gives up. |
| AcpPrompt.ACPServer.SyncConfig | cloud-backend/pkg/agentengine/qwenpaw/acp.go:668-683 | The process is replaced exactly if base URL, key or model differ from those it was spawned with, and a process connected afterwards has the current three. |
| Store.Memory.CreateInstance | cloud-backend/pkg/db/memory.go:30-36 | The store holds a copy: the record map changes in one entry and shares no object with the caller. |
| Store.Memory.GetInstance | cloud-backend/pkg/db/memory.go:38-47 | The caller gets a fresh object with the record's value. |
| Store.Memory.UpdateInstance | cloud-backend/pkg/db/memory.go:61-70 | A known user's record is replaced by a copy, and an unknown one changes nothing. |
| Store.Memory.DeleteInstance | cloud-backend/pkg/db/memory.go:72-78 | Record and activity go together. |
| Store.Memory.TouchActivity | cloud-backend/pkg/db/memory.go:80-90 | Only the user's own activity time changes, though its object is edited in place. |
| Store.Memory.SetWSConnections | cloud-backend/pkg/db/memory.go:92-103 | Only the user's own count and time change. |
| Store.Memory.GetActivity | cloud-backend/pkg/db/memory.go:105-114 | A copy, or a record active right now for a user who has none. |
| Store.Memory.ListInstances | cloud-backend/pkg/db/memory.go:49-59 | Fresh copies of all records, every user once, in the order of their ids. |
| Store.MemoryCache.Set | cloud-backend/pkg/db/cache.go:37-45 | One entry with its expiry, or with the default one if none is given. |
| Store.MemoryCache.Get | cloud-backend/pkg/db/cache.go:47-59 | The configuration until its expiry, inclusive. |
| Backends.Registry.Register | cloud-gateway/internal/registry/registry.go:21-25 | One route is set and the others stay. |
| Backends.Registry.Unregister | cloud-gateway/internal/registry/registry.go:28-32 | One route is removed. |
| Backends.Registry.Resolve | cloud-gateway/internal/registry/registry.go:35-40 | Over the whole history of the table: the endpoint the user was registered with last, unless he was unregistered after that. |
| Backends.Registry.Snapshot | cloud-gateway/internal/registry/registry.go:43-51 | The loop copies the whole table. |
| Backends.Provider.Create | cloud-backend/pkg/sandboxprovider/e2b/provider.go:117-145 | A created sandbox is tracked even if it does not become ready. |
| Backends.Provider.Start | cloud-backend/pkg/sandboxprovider/e2b/provider.go:148-172 | Connecting resumes the tracked sandbox; an unknown user is an error. |
| Backends.Provider.Stop | cloud-backend/pkg/sandboxprovider/e2b/provider.go:175-189 | Pausing connects first, so a failed pause leaves the sandbox running; an unknown user is no error. |
| Backends.Provider.Delete | cloud-backend/pkg/sandboxprovider/e2b/provider.go:192-209 | A failed connect counts as gone and is forgotten; a failed kill keeps the sandbox tracked and running. |
| Manager.Manager.Create | cloud-backend/pkg/sandboxruntime/manager.go:65-117 | New state and reply equal the specification on values, on every path through create, ready, health, route, configuration and record. |
| Manager.Manager.Suspend | cloud-backend/pkg/sandboxruntime/manager.go:120-142 | The same for suspending: early returns leave the stored record alone although a copy was edited. |
| Manager.Manager.Wake | cloud-backend/pkg/sandboxruntime/manager.go:145-153 | The same for waking; `LifecycleOutcomes.EveryOutcome` says what that is. |
| Manager.Manager.WakeLocked | cloud-backend/pkg/sandboxruntime/manager.go:155-185 | The same for the locked part, which edits the caller's record in place. |
| Manager.Manager.Delete | cloud-backend/pkg/sandboxruntime/manager.go:188-203 | The same for deleting. |
| Manager.Manager.SetModelConfig | cloud-backend/pkg/sandboxruntime/manager.go:246-263 | The same for hot switching: cache and activity change only after the gateway took the configuration. |
| Manager.Manager.ResolveConfig | cloud-backend/pkg/sandboxruntime/manager.go:274-279 | The cached configuration if it is unexpired and has a base URL, and otherwise the seat's. |
| Manager.Manager.FailInstance | cloud-backend/pkg/sandboxruntime/manager.go:383-394 | A failure is recorded whether or not the user has a record. |
| LifecycleOutcomes.EveryOutcome | cloud-backend/pkg/sandboxruntime/manager.go:65-263 | After every lawful run, for every operation and every answer of the outside world: exactly when it succeeds, the first thing it fails for, its reply, and the whole state it leaves, in success and in failure. |
| LifecycleOutcomes.ValidUserIDs | cloud-backend/pkg/sandboxprovider/provider.go:49-57 | Which user ids are valid, built up character by character from the empty one. |
| LifecycleOutcomes.EndpointsDiffer | cloud-backend/pkg/sandboxprovider/e2b/provider.go:228-232 | Different sandboxes have different endpoints. |
| LifecycleOutcomes.SlashesTrimmed | cloud-backend/pkg/sandboxprovider/e2b/provider.go:230 | The base of an endpoint ends in no slash and lacks nothing but slashes. |
| LifecycleSafety.OperationsAreIsolated | cloud-backend/pkg/sandboxruntime/manager.go:65-203 | No operation on one user changes anything of another user in any of five tables, nor any sandbox that is not his. |
| LifecycleSafety.RunConsistent | cloud-backend/pkg/sandboxruntime/manager.go:65-203 | In every run what is tracked exists, belongs to the user and has a record, and a cached configuration implies status Running. |
| LifecycleStrays.OperationLeaksExactly | cloud-backend/pkg/sandboxprovider/e2b/provider.go:117-209 | The untracked live sandboxes an operation adds are exactly those a condition on its failing calls names. |
| LifecycleStrays.StepKeepsNoStraysIff | cloud-backend/pkg/sandboxprovider/e2b/provider.go:192-209 | A system without strays stays so exactly if the operation leaks nothing. |
| LifecycleStrays.AtMostOneLiveSandbox | cloud-backend/pkg/sandboxruntime/manager.go:72-117 | In every run with reliable kills, whatever else fails: a live sandbox is the tracked one of a recorded user, and a user has at most one. |
| FailingRuns.FailedConnectLeaks | cloud-backend/pkg/sandboxprovider/e2b/provider.go:197-201 | A lawful run in which one failed connect leaves a live sandbox that nobody tracks. |
| LifecycleHistory.StatusMovesAlongEdges | cloud-backend/pkg/sandboxruntime/manager.go:72-203 | Whatever fails, status moves only along the edges of the state machine; Running never fails, and only Delete removes a record. |
| LifecycleHistory.CacheIsLatestSwitch | cloud-backend/pkg/sandboxruntime/manager.go:130-135 | After any run the cache holds the latest successful hot switch since the latest successful Suspend or Delete. |
| LifecycleHistory.EffectiveConfigIsHistory | cloud-backend/pkg/sandboxruntime/manager.go:246-279 | The effective configuration as a function of the operation history alone. |
| LifecycleHistory.WakeInjectsSeatConfig | cloud-backend/pkg/sandboxruntime/manager.go:168-172 | A successful wake of an instance that was not running hands the gateway the seat's configuration. |
| LifecycleHistory.CreateInjectsSeatConfig | cloud-backend/pkg/sandboxruntime/manager.go:72-110 | So does a successful create of one that is not running, whether new, failed or suspended. |
| LifecycleAgreement.DeleteAgreesIff | cloud-backend/pkg/sandboxruntime/manager.go:188-203 | Exactly when a delete keeps store and world in agreement. |
| FailingRuns.FailedKillDisagrees | cloud-backend/pkg/sandboxprovider/e2b/provider.go:197-205 | A lawful run after which a user is recorded as suspended while his sandbox runs. |
| FailingRuns.LeftRouteDisagrees | cloud-backend/pkg/sandboxruntime/manager.go:194-196 | A lawful run after which a deleted user still has a route. |
| LifecycleAgreement.StoreAgreesWithWorld | cloud-backend/pkg/sandboxruntime/manager.go:92-203 | In every reliable run, after every operation: Running means a running tracked sandbox and a route to its endpoint, Suspended a paused one, and no record no route. |
| Reaper.Reaper.RunScan | cloud-backend/pkg/sandboxruntime/reaper.go:39-58 | The scan on the heap, with requests served between any two of its steps, is a possible run of listing, reads and suspends. It visits every user listed, once and in order, and suspends exactly those listed as running whose activity, when read, had no connections and was old enough. |
| Reaper.ScanSuspendsExactlyTheDue | cloud-backend/pkg/sandboxruntime/reaper.go:39-58 | Whatever runs between its steps: a finished scan visited every user with a record at its listing once and in order, read exactly those listed as running, and suspended exactly those read as unconnected and idle long enough. |
| Reaper.SuspendsOnlyTheDue | cloud-backend/pkg/sandboxruntime/reaper.go:44-57 | Every suspend of the reaper comes after its user was listed as running and read as due, and does what a suspend of that user does to the system of that moment. |
| Reaper.VisitsSuspendTheIdle | cloud-backend/pkg/sandboxruntime/reaper.go:48-54 | At any point of a scan, a visit suspended its user exactly if he was listed as running and the activity table at his read had no connections for him and a time at least the timeout ago. |
| Reaper.ReadFinds | cloud-backend/pkg/sandboxruntime/reaper.go:47-52 | What a read decides is a matter of history: the count written last, and the time of the latest touch, hot switch or count, since the latest delete. |
| Reaper.SuspendsOnlyTheIdle | cloud-backend/pkg/sandboxruntime/reaper.go:44-57 | Whoever the reaper suspends had, by the history up to the read, no connections and no activity within the idle timeout. |
| Reaper.ScanSuspendsExactlyTheIdle | cloud-backend/pkg/sandboxruntime/reaper.go:39-58 | The same for a finished scan, in both directions. |
| Reaper.SystemIsRunOfOps | cloud-backend/pkg/sandboxruntime/reaper.go:54 | The reaper does nothing to the system but suspend, so all that holds of runs of operations holds with it. |
| Reaper.NoRecordNoReaping | cloud-backend/pkg/db/memory.go:105-114 | A user without an activity record is found due exactly if the clock moves by the idle timeout between the two reads of it. |
| LifecycleActivity.StoredCountIsLatest | cloud-backend/pkg/db/memory.go:72-103 | Over any run, whatever fails, the stored connection count is the one written last, or none after a delete. |
| LifecycleActivity.StoredActivityIsLatest | cloud-backend/pkg/db/memory.go:72-103 | Over any run the stored time is that of the latest touch, successful hot switch or written count since the latest delete. |
| LifecycleActivity.SuspendCommutesWithCounts | cloud-backend/pkg/sandboxruntime/manager.go:120-142 | A count written while a suspend is under way and one written before or after it make no difference to either. |
| Relay.Server.AddWS | cloud-backend/pkg/apiserver/controlplane/server.go:377-385 | The counter is adjusted, dropped when it is not positive, and written to the store. |
| Relay.CountsAreOpenRelays | cloud-backend/pkg/apiserver/controlplane/server.go:345-346 | Over every interleaving of opens and closes the table holds for each user the size of the set of his open relays, and no zeros. |
| RelayReaping.StoredCountIsOpenRelays | cloud-backend/pkg/apiserver/controlplane/server.go:345-385 | With operations and reaper steps in between, the stored count is the number of open relays, or none if the instance was deleted since the latest relay event. |
| RelayReaping.OpenRelayIsNotDueIff | cloud-backend/pkg/sandboxruntime/reaper.go:47-52 | However long he is idle, no read finds a user with an open relay due, exactly if no delete came after his latest relay event. |
| RelayReaping.ReapedUnderOpenRelayIff | cloud-backend/pkg/sandboxruntime/reaper.go:47-54 | The reaper is about to suspend a user: he has an open relay exactly if one opened after his activity was read, or one was open at the read and the instance had been deleted under it. |
| RelayReaping.OpenedTooLate | cloud-backend/pkg/sandboxruntime/reaper.go:47-54 | A lawful run without any delete in which the relay opens between the read and the suspend. |
| RelayReaping.DeletedUnderRelay | cloud-backend/pkg/db/memory.go:72-78 | A lawful run in which the instance is deleted and made again under an open relay. |
| HeadlinePattern.ScanDecidesPattern | cloud-backend/pkg/agentengine/qwenpaw/headline.go:13-15 | On every line the two-ended scan accepts exactly what the pattern matches. |
| HeadlineText.CutIsCutLines | cloud-backend/pkg/agentengine/qwenpaw/headline.go:22 | Replacing all matches from the left, with the pattern's anchors and its optional newline, is an operation on lines. |
| HeadlineText.CollapseIsSqueeze | cloud-backend/pkg/agentengine/qwenpaw/headline.go:23 | Replacing runs of three or more newlines is dropping each newline that two more follow. |
| HeadlineText.StripIsStripHeadlineText | cloud-backend/pkg/agentengine/qwenpaw/headline.go:18-25 | The whole stripper as list and string functions, for all texts. |
| HeadlineNormalForm.StripKeepsContent | cloud-backend/pkg/agentengine/qwenpaw/headline.go:18-25 | Stripped text has, line by line, the content of the text without its headlines; only the outer ends are trimmed. |
| HeadlineNormalForm.HeadlineSurvivesIff | cloud-backend/pkg/agentengine/qwenpaw/headline.go:24 | Stripped text contains a headline exactly if trimming lays one bare. |
| HeadlineNormalForm.StripLeavesNoTriple | cloud-backend/pkg/agentengine/qwenpaw/headline.go:23 | Stripped text never contains three newlines in a row. |
| HeadlineNormalForm.StripIdempotentIff | cloud-backend/pkg/agentengine/qwenpaw/headline.go:18-25 | Stripping is idempotent on a text exactly if trimming lays bare no headline. |
| HeadlineNormalForm.PlainTextIsNormal | cloud-backend/pkg/agentengine/qwenpaw/headline.go:13-25 | For texts whose only space is blanks and newlines the result is in normal form and stripping is idempotent. |
| HeadlineNormalForm.OtherSpaceHidesHeadline | cloud-backend/pkg/agentengine/qwenpaw/headline.go:14 | A family of texts on which it is not. |
| HeadlineFilter.HeadlineLineIffMatch | cloud-backend/pkg/agentengine/qwenpaw/headline.go:27-29 | The test on a line with or without its newline is a match of the pattern anywhere in it. |
| HeadlineFilter.HeadlineLineFilter.Write | cloud-backend/pkg/agentengine/qwenpaw/headline.go:41-60 | The buffer ends as the rest of the text behind its last newline, and what was emitted are the completed lines that are no headlines. |
| HeadlineFilter.HeadlineLineFilter.Flush | cloud-backend/pkg/agentengine/qwenpaw/headline.go:63-75 | The rest is emitted unless it is empty or a headline. |
| HeadlineFilter.CompleteAppend | cloud-backend/pkg/agentengine/qwenpaw/headline.go:41-60 | Appending to a text only goes on with its last line. |
| HeadlineFilter.Stream | cloud-backend/pkg/agentengine/qwenpaw/headline.go:41-75 | For every way of cutting a text into pieces the filter emits the same: of the text's lines, each with its newline, exactly those that are no headlines, whole and in order. |
| HeadlineFilter.PiecesAreTheText | cloud-backend/pkg/agentengine/qwenpaw/headline.go:41-60 | Those lines together are the text, and each is one line; only the last may lack its newline. |
| HeadlineFilter.StreamedArePicked | cloud-backend/pkg/agentengine/qwenpaw/headline.go:52-58 | What is emitted are the lines at the positions of the non-headlines, in ascending order, none left out. |
| HeadlineAgreement.StrippedIsShown | cloud-backend/pkg/agentruntime/session.go:179-183 | The stripped text has line by line the content of the deltas that pass the blank test, but for the trimmed outer ends. |
| HeadlineAgreement.StreamedAndBatchAgree | cloud-backend/pkg/agentengine/qwenpaw/headline.go:18-75 | Streamed and stripped text are equal when all space is erased, for every text. |
| HeadlineAgreement.NothingShownIff | cloud-backend/pkg/agentengine/qwenpaw/engine.go:179-182 | Nothing is shown exactly if nothing is left. |
| EngineChat.Chat | cloud-backend/pkg/agentengine/qwenpaw/engine.go:131-184 | For every sequence of updates, every choice of callbacks and either outcome of the prompt: the events, and the reply, as a matter of the texts the kernel sent, put together as they came. |
| EngineChat.TextIsWhatWasSent | cloud-backend/pkg/agentengine/qwenpaw/engine.go:149-153 | The accumulated text is the concatenation of the sent texts. |
| EngineChat.MessageOfPieces | cloud-backend/pkg/agentengine/qwenpaw/engine.go:146-155 | However a message is cut into updates, its texts are the pieces, unchanged. |
| EngineChat.OthersAddNoText | cloud-backend/pkg/agentengine/qwenpaw/engine.go:145-170 | Thoughts, tools, usage and misshapen updates add no text wherever they come. |
| EngineChat.AsidesByKind | cloud-backend/pkg/agentengine/qwenpaw/engine.go:156-169 | Which update gives which other event, and under which callback, in order. |
| EngineChat.LinesAreShownInTime | cloud-backend/pkg/agentengine/qwenpaw/engine.go:149-154 | A line is shown as soon as it is complete, before any event of a later update. |
| EngineChat.SentArePicked | cloud-backend/pkg/agentruntime/session.go:178-193 | A stream sends every event in its place but deltas without text. |
| EngineChat.DeltasAreTheStreamedText | cloud-backend/pkg/agentengine/qwenpaw/engine.go:141-173 | However the message is cut into updates and mixed with others, the deltas are the lines, without headlines, of the concatenated texts that were sent, and the other events come as they were sent. |
| EngineChat.StreamAgreesWithReply | cloud-backend/pkg/agentengine/qwenpaw/engine.go:171-183 | What is shown while streaming and the final reply differ in white space only; if no text was shown, the reply is the placeholder. |
| ConversationLog.AppendReturnsLineNumber | cloud-backend/pkg/agentruntime/session.go:82-109 | Whatever the file contains, a successful append returns the number of the line it completed, and that line ends in the new entry. |
| ConversationLog.AppendHolds | cloud-backend/pkg/agentruntime/session.go:82-109 | An append that tears no line adds one entry with the next index, or nothing. |
| ConversationLog.HistoryReadsBack | cloud-backend/pkg/agentruntime/session.go:258-291 | From a log of whole entries: the entries at the positions of the session, or of all, in ascending order; at most n, and one is left out only if n later ones are there. |
| ConversationLog.HistoryPicksLast | cloud-backend/pkg/agentruntime/session.go:258-291 | From any file: the last n lines that decode to an entry of the session, or the last n lines, decoded as far as they can be. |
| Conversation.Session.MessageIndex | cloud-backend/pkg/agentruntime/session.go:71-80 | The number of complete lines in the file. |
| Conversation.Session.AppendLog | cloud-backend/pkg/agentruntime/session.go:82-109 | File and result of an append, for every way it can fail. |
| Conversation.Session.Chat | cloud-backend/pkg/agentruntime/session.go:112-154 | File, engine and response after a call, with the fallback to the mock engine and the placeholder. |
| Conversation.Session.ChatStream | cloud-backend/pkg/agentruntime/session.go:160-214 | The same for a stream, with the frames it sends. |
| Conversation.Session.FilterInPlace | cloud-backend/pkg/agentruntime/session.go:270-279 | Compacting the lines over their own array keeps exactly the session's lines in order. |
| Conversation.Session.History | cloud-backend/pkg/agentruntime/session.go:258-291 | For every file, torn lines included: the last n lines of the session, at ascending positions with none skipped, decoded. |
| Conversation.MessageIndexNamesItsLine | cloud-backend/pkg/agentruntime/session.go:112-154 | The index a call returns is the number of its message's line, then and after any later calls, reopenings and torn writes. |
| Conversation.LogOfRun | cloud-backend/pkg/agentruntime/session.go:82-214 | Over any serial run without torn writes the file is exactly the entries of the calls and the k-th carries index k. |
| Conversation.TwoLinesPerCall | cloud-backend/pkg/agentruntime/session.go:112-214 | Whatever complete lines the file has, a call whose writes work adds exactly two lines to it: the encoded message and the encoded answer or error, under the request's session id or else the active one, with their own line numbers, times and model; success returns the first number. |
| Conversation.WhoAnswers | cloud-backend/pkg/agentruntime/session.go:122-154 | Which engine answers and stays, what reply, model, provider and session id the response carries, and when a call fails. |
| Conversation.MockReplyIsThreeLines | cloud-backend/pkg/agentengine/mock/engine.go:36-48 | The mock reply as its three joined lines, the second of which repeats the message. |
| Conversation.HistoryOfRun | cloud-backend/pkg/agentruntime/session.go:258-291 | After any such run: the last n of the run's entries that carry the session id, in order, none skipped; all of them without a limit. |

## Left out

- HTTP and WebSocket handlers, proxying, authentication, the gateway's and the agent's clients, the web
  front end and deployment files: plumbing without state of its own.
- The Redis cache, the Postgres store and the docker and process providers: the memory store, the memory
  cache and the e2b provider are modelled. Failures of store calls are dead branches with these.
- Restart recovery by `Seed`: no sandbox id is carried into the stored instance.
- An external call of the control plane that fails after it took effect. A failing call has no effect of
  its own here, and what was done before it stays done.
- Several clock readings in one operation are one reading, but for the two of the reaper's visit.
- `WaitHealth` returns at once for endpoints of the e2b provider; here it may fail.
- Interleavings inside one manager operation: operations hold the manager's lock, and each writes instances
  and activity at one point. Relays, activity reads and the reaper's steps, which do not hold it, are
  interleaved with whole operations. A log is written by serial callers.
- The ticker and the disabled state of the reaper; reviews and tokens in the memory store.
- The int64 wrap-around of `nextID`, and messages of the peer with an id that answer nothing.
- Delivery of session updates to handlers in the fine-grained protocol: `EngineChat` takes the updates of
  a chat as they arrive. Permission requests appear only as writes that may fail.
- Liveness. `AcpGuarantees.ReadReplyArrives` says which steps are enabled, not that they are taken.
- The link from a conversation to the engine's active session: it is a parameter of each call.
- Config files, environments, signals and timeouts of the child process are nondeterministic outcomes.
  `killLocked` runs without the lock when a handshake fails; it is taken as one step.
- Session ids in the fine-grained model: nothing is claimed about recorded sessions belonging to the current
  process, because `SessionID` records them after releasing the lock.
- UTF-8: texts are sequences of characters, and a piece of a text never splits one.
- JSON: entries are encoded by any codec that decodes what it encoded, into one object without a newline.
- The chunks of the mock engine: its callbacks are a parameter like any engine's.
- Conversation.LogOfRun: does not cover torn writes; MessageIndexNamesItsLine does.
