# Ark event pipeline: a verified model

Ark collects events from probes. An agent filters them and forwards them to a hub with
retries. The hub drops duplicates, folds the rest into an indexed causal graph, keeps a
bounded buffer and writes a rotating log that it replays at start. Rules and windowed
signals are evaluated over the result, and diagnoses may send guarded fix commands.

This project models that pipeline in Dafny and proves what it guarantees over whole runs:

- **The graph.** `Graph` is the graph as a value: typed nodes and one edge list.
  `StateGraph` is the object the hub holds, with the edge list in three forms, each method
  proved against the value. `Interleaving` runs handlers and two-phase cleanups in every
  order, with any number of stale snapshots in flight. `RootCause` is the depth-first
  search, on any graph. `Attribution` says what its reports contain, through cleanups too.
  `Lifetimes` says how long things stay, `Observations` what is on record about them.
  `TextGraph` keeps the ids as text, as the code does, and says exactly when that is the
  same graph; `TextSafety` says exactly when its edges stay typed.
- **Delivery and recovery.** `Forwarder` is the agent's queue under a network that answers
  every send and reconnect as it likes, including deliveries that report failure. `Dedup`,
  `Wal` and `Hub` are the hub side. `Delivery` proves exactly-once end to end, `Recovery`
  says exactly when replay is exact, `Crashes` that crashes are invisible, and `Pipeline`
  puts any network, any crashes and the real graph together.
- **Rules.** `Glob` relates the greedy pattern scan to the declarative meaning of
  patterns. `Rules` says what a condition means, `Matcher` evaluates it, `RuleEngine` loads
  and matches. `Migration` relates the two independent readings of older rule files.
- **Signals, roll-up and the execute guard.** `Signals`, `Rollup` and `ExecuteGuard` are
  small state machines with guarantees over all histories or all interleavings.
  `Emissions` says what the signals report and the graph shows, `Alerts` what a rule makes
  of it.

`Seqs`, `SetSum`, `Text` and `Events` hold the list, multiset and text operations the
others share; `Naming` says exactly when two ids are the same text.

Conventions. Times are natural numbers with saturating subtraction. Floating point numbers
are reals; reading and printing them are parameters (`parse`, `show`) and every theorem
holds for all of them, except that `Alerts` takes numbers to read back as printed. The fingerprint of the de-duplication store is a parameter too;
where a theorem needs it to separate events it says so. A stateful class has a `View` and
each of its methods is proved equal to a function on views; the theorems over runs are
about those functions.

What the proofs turned up:

- A started process can be lost to a cleanup that took its snapshot before the start:
  `RestartIsLost` is such a run, `StartedIsListed` gives the exact condition.
- A restart is exact after every prefix of a stream if and only if no rejected event is
  more than a window later than an event the store still remembers (`ReplayIsExactIff`).
  `DisorderBreaksReplay` is a family of streams for which it is not. With one timestamp
  per key it is enough that no event is more than a window older than one before it
  (`TimelyIsSafe`), which streams in time order are.
- Rotation throws the rotated file away even when the active file is empty. That takes a
  crash in the middle of a rotation (`EmptyActiveNeedsCrash`) and then a line longer than
  the limit; `OverlongLineLosesLog` is the run, `AppendLosesIff` says exactly when lines
  are lost.
- A use of a resource that is already linked does not refresh the link, so a cleanup
  drops the link of a process that still uses the resource (`UseDoesNotRefresh`).
- A repeated error does not refresh its record either: an error that goes on is taken away
  once the first report of it is 300 seconds old, by the very event that repeats it if that
  one brings the cleanup (`StaleErrorGoes`).
- Migration can make a rule load that the rule reader refuses (`MigrationRevives` says
  exactly which); the migration does not know `signal` conditions and leaves such rules
  partially migrated, with the same meaning.
- A buffer of configured size 0 still holds one event (`BufferIsNewest`).
- Ids as text can be the same for different things, for example a resource called
  `error-x` and the error of `x` (`NamesCollide`); `RenderMeetsIff` says exactly when. Then
  a run merges their nodes (`MeetingMerges`), and the error of `x` is never recorded while
  its consumers are blocked by a resource (`ErrorIsSwallowed`). Over a stock of ids the
  text will do in all runs if and only if no two that can be used are the same text
  (`TextIsTypedIff`), and edges stay typed if and only if none of different kinds are
  (`TextIsSafeIff`). Proper names in namespaces that do not slip are enough
  (`ProperRunIsApart`); a node id without `::` and without a colon at its end never slips
  (`SeparatorNeeded`).

## Model

| member | source | states |
|---|---|---|
| `Interleaving.ReachableIsSafe` | core/src/graph.rs:208-548 | In every interleaving of handlers with two-phase cleanups, however stale their snapshots: nodes have the kind of their id, every edge leaves a present process and enters a present resource (Consumes, WaitsOn) or error (BlockedBy), edge keys are distinct, and there is no cycle |
| `Interleaving.HandleKeepsWellFormed` | core/src/graph.rs:102-124 | Every handler keeps the graph well-formed and removes no node |
| `Interleaving.CleanupKeepsWellFormed` | core/src/graph.rs:516-544 | Applying any typed snapshot, taken at any earlier time, keeps the graph well-formed |
| `Interleaving.StartedIsListed` | core/src/graph.rs:172-205 | A process that has just started is listed as active in every later state without its own exit or zombie event if and only if no cleanup in flight has it on its list |
| `Interleaving.RestartIsLost` | core/src/graph.rs:478-524 | A run in which that fails: a process exits, a cleanup takes its snapshot, the process starts again, the cleanup takes it away |
| `Interleaving.ResourcesStay` | core/src/graph.rs:521-547 | Resource and signal nodes are never removed, in any interleaving |
| `Interleaving.ErrorNodeIsFrozen` | core/src/graph.rs:426-441 | No step changes an error node while it is present; a repeated error does not refresh it |
| `EdgeLists.UpsertKeeps` | core/src/graph.rs:682-702 | An upsert keeps keys distinct, adds exactly its key, and leaves known edges and their timestamps alone |
| `EdgeLists.BlockAllKeeps` | core/src/graph.rs:443-466 | The error handler appends exactly one BlockedBy edge for each affected process that had none |
| `EdgeLists.ConsumersAre` | core/src/graph.rs:446-452 | The affected processes are exactly the sources of Consumes edges into the resource |
| `EdgeLists.SweptHas` | core/src/graph.rs:526-537 | The three retain passes keep exactly the edges that survive the snapshot and the TTL |
| `EdgeLists.CappedIs` | core/src/graph.rs:539-543 | The capacity guard does nothing below the limit; above it exactly the limit stays and nothing cut is newer than something kept |
| `EdgeLists.CleanupBounds` | core/src/graph.rs:526-544 | Right after a cleanup at most 100,000 edges remain, all within the TTL and off removed nodes, and none cut for capacity is newer than one kept |
| `EdgeLists.CappedHas` | core/src/graph.rs:539-543 | The capacity guard keeps an edge if and only if fewer than the limit are ahead of it: newer, or as new and earlier in the list |
| `EdgeLists.CleanupKeepsIff` | core/src/graph.rs:516-543 | An edge is left by a cleanup if and only if it was there, neither end is condemned, it is inside the TTL and it is not cut for capacity |
| `Seqs.SortDescIs` | core/src/graph.rs:541-541 | The sort is a permutation, descending in its key, and stable |
| `Seqs.SortedAt` | core/src/graph.rs:541-541 | The sort puts each element behind exactly those with a greater key and those with its key that came before it |
| `StateGraph.StateGraph.constructor` | core/src/graph.rs:77-88 | A new graph is empty and its three edge forms agree |
| `StateGraph.StateGraph.UpsertEdge` | core/src/graph.rs:682-702 | List, key set and adjacency index stay in agreement; returns true exactly for a new key |
| `StateGraph.StateGraph.RebuildIndexes` | core/src/graph.rs:704-721 | The rebuilt key set and adjacency index are those of the edge list, each list in edge order |
| `StateGraph.StateGraph.HandleProcessState` | core/src/graph.rs:172-205 | Start creates a running process, exit and zombie mark a known one, anything else changes nothing |
| `StateGraph.StateGraph.HandleComputeEvent` | core/src/graph.rs:208-267 | Records utilisation and links the process to the resource; the three edge forms agree |
| `StateGraph.StateGraph.HandleTransportEvent` | core/src/graph.rs:270-414 | Records the observation and links the process that is shown waiting, for transport and storage events |
| `StateGraph.StateGraph.HandleErrorEvent` | core/src/graph.rs:417-475 | Creates the error node if it is new and blocks every consumer of the resource |
| `StateGraph.StateGraph.HandleEvent` | core/src/graph.rs:102-124 | Dispatch by event kind to the handler of that kind |
| `StateGraph.StateGraph.Prune` | core/src/graph.rs:516-543 | The write phase of a cleanup equals applying the snapshot to the value |
| `StateGraph.StateGraph.BeginCleanup` | core/src/graph.rs:483-514 | The read phase collects exactly the stale errors and the dead processes; which those are is in the rows of `Lifetimes` |
| `StateGraph.StateGraph.FinishCleanup` | core/src/graph.rs:516-544 | The write phase, for any snapshot however old, equals applying it to the value and leaves the three edge forms in agreement |
| `StateGraph.StateGraph.CleanupOldErrors` | core/src/graph.rs:478-548 | A cleanup in one piece equals snapshot then apply, with rebuilt indexes in agreement |
| `StateGraph.StateGraph.UpdateSignals` | core/src/graph.rs:140-169 | Feeds the signal engine and publishes one node per emitted point |
| `StateGraph.StateGraph.ProcessEvent` | core/src/graph.rs:101-138 | One event is handler, then cleanup when due, then signals, and equals the fold step of the value |
| `StateGraph.StateGraph.GetProcessResources` | core/src/graph.rs:586-599 | Reading the index gives exactly what a scan of all edges would, in the same order |
| `StateGraph.TargetsAre` | core/src/graph.rs:586-599 | That scan finds exactly the targets of such edges, each once |
| `StateGraph.StateGraph.FindRootCauseById` | core/src/graph.rs:609-618 | The report is the sum of contributions over what the node reaches in the edge list |
| `StateGraph.ProjectIsIndexed` | core/src/graph.rs:690-696 | Each list of the adjacency index is the in-order projection of the edges of that source |
| `RootCause.DfsBackward` | core/src/graph.rs:620-655 | Terminates on every graph; visits only what is reachable, leaves no step untaken, and adds each visited node's contribution once |
| `RootCause.FindRootCause` | core/src/graph.rs:609-655 | As a multiset the causes are exactly the sum, over nodes reachable by BlockedBy through present nodes, of each node's error and wait targets |
| `Attribution.ReportIsExact` | core/src/graph.rs:620-655 | In a well-formed graph a report names exactly the errors and waits the process has an edge to, each once |
| `Attribution.ErrorsAreAttributed` | core/src/graph.rs:417-469 | In any reachable state, when an error recurs, the report of every process consuming the resource names it exactly once, with the type recorded when its node was created, and names nothing twice |
| `Attribution.FirstErrorIsAttributed` | core/src/graph.rs:417-469 | The first error of a resource is in the report of every consumer as soon as its handler has run |
| `Attribution.EdgeStaysIff` | core/src/graph.rs:516-543 | Over every interleaving, an edge is never away if and only if every cleanup that ends on the way spares it |
| `Attribution.UserIsBlamed` | core/src/graph.rs:235-264 | A process seen using a resource is blamed on a later error of it, in every interleaving whose cleanups spare the link between them, whatever else they remove |
| `Attribution.RunningUserIsBlamed` | core/src/graph.rs:235-264 | So is a running process that nothing has condemned, through all cleanups within the TTL of the link, while there is room for all edges |
| `Attribution.UseDoesNotRefresh` | core/src/graph.rs:690-702 | Another use does not make a link younger: a cleanup after the TTL of the first use drops it |
| `Attribution.WaiterIsReported` | core/src/graph.rs:315-405 | A process seen waiting has exactly one such wait in its report, in every interleaving whose cleanups spare the link |
| `Attribution.FoldIsRun` | core/src/graph.rs:101-138 | Processing a stream one event at a time is one of the interleavings, with no cleanup left open |
| `Attribution.StreamKeepsWellFormed` | core/src/graph.rs:101-138 | After every stream of events the graph is well-formed |
| `Attribution.StartedStaysListed` | core/src/graph.rs:478-583 | With cleanups in one piece a started process stays listed, whatever its age, until its own exit or zombie event |
| `Lifetimes.ErrorStaysInWindow` | core/src/graph.rs:478-492 | An error is on record, with its type and time, after every stream of events up to 300 seconds later |
| `Lifetimes.StaleErrorGoes` | core/src/graph.rs:478-530 | The first event with a cleanup more than 300 seconds after an error was made takes it away with all links to it, even if it repeats the error |
| `Lifetimes.SilentProcessStays` | core/src/graph.rs:494-512 | A process brought in by a use and never seen to start is there after every stream of events up to 600 seconds later without its exit |
| `Lifetimes.SilentProcessGoes` | core/src/graph.rs:494-512 | The first event with a cleanup more than 600 seconds after takes it away, unless it starts it |
| `Lifetimes.ExitedProcessGoes` | core/src/graph.rs:500-512 | The first event with a cleanup after its exit takes a process away |
| `Lifetimes.NothingIsOld` | core/src/graph.rs:126-134 | After every stream in time order: a cleanup is less than 30 seconds back, errors are less than 330 seconds old, exited processes 30, processes not known to run 630, edges an hour and 30 seconds |
| `Lifetimes.NothingGoesBetween` | core/src/graph.rs:126-134 | Less than 30 seconds after a cleanup no event takes anything away |
| `Observations.ObservationIsLatest` | core/src/graph.rs:225-312 | In every interleaving the graph has for every resource and key the value observed last |
| `Observations.ResourceIsUpToDate` | core/src/graph.rs:213-232 | In every interleaving a resource is there exactly if it was observed, as of its last observation |
| `Observations.StartIsRecorded` | core/src/graph.rs:179-195 | A start puts the process on record as running, with its job and nothing else |
| `Observations.FirstSightIsRecorded` | core/src/graph.rs:235-250 | A process first seen by a use has nothing on record; one first seen by a drop report is taken to be running |
| `Observations.EndIsRecorded` | core/src/graph.rs:195-202 | An exit changes the state and keeps the rest |
| `Observations.EndedIsNotListed` | core/src/graph.rs:195-202 | After its exit a process is not listed in any interleaving that does not name it again |
| `Observations.ErrorIsRecordedIff` | core/src/graph.rs:112-118 | Exactly hardware, network and link failures put an error on record, under the name of their entity |
| `Observations.BandwidthShowsWaitIff` | core/src/graph.rs:367-378 | The first bandwidth report of a process shows it waiting if and only if it says so or its number is below 1 |
| `Observations.DropShowsWaitIff` | core/src/graph.rs:317-330 | The first drop report shows its process waiting if and only if it is not process 0 |
| `Observations.NobodyIsShown` | core/src/graph.rs:317-330 | Storage reports, bandwidth reports without a process and drop reports that name none show nobody waiting |
| `Naming.RenderMeetsIff` | core/src/graph.rs:92-98 | Exactly when two ids are the same text: the same, or a resource called what the other is called, or an id without namespace that looks like one with, or a namespace read inside another |
| `Naming.JoinsMeetIff` | core/src/graph.rs:92-98 | Exactly when two texts with namespaces are the same |
| `Naming.SpacesMeetIff` | core/src/graph.rs:92-98 | Two namespaces have a text in common if and only if they are the same or one continues the other behind its separator |
| `Naming.NamesMeetIff` | core/src/graph.rs:172-424 | Within a namespace, two names are the same if and only if they are of one thing or a resource is called like the other |
| `Naming.ProperIsApart` | core/src/graph.rs:92-98 | Proper ids in namespaces that do not slip are the same text only if they are the same |
| `Naming.NamesCollide` | core/src/graph.rs:423-424 | Two families of ids of different things that are the same text |
| `TextGraph.TextIsTyped` | core/src/graph.rs:92-548 | In every interleaving that uses no two ids of one text, the graph over text is the graph over typed ids, name for id: nodes with their contents and edges in order |
| `TextGraph.TextIsTypedIff` | core/src/graph.rs:92-548 | Over a stock of ids that holds in all interleavings if and only if no two ids that can be used are the same text |
| `TextGraph.MeetingMerges` | core/src/graph.rs:102-475 | Two ids of one text: a run makes both nodes in the typed graph and one in the graph over text |
| `TextGraph.ProperRunIsApart` | core/src/graph.rs:92-98 | Conditions on the names in a run under which no two of its ids are the same text |
| `TextGraph.HandleAgrees` | core/src/graph.rs:102-475 | Each handler over text does to the names what the typed handler does to the ids, if the ids it makes or looks up are told apart |
| `TextGraph.CleanupAgrees` | core/src/graph.rs:511-543 | So does a cleanup, through its retain passes, its sort and its cut |
| `TextSafety.TextIsSafe` | core/src/graph.rs:208-548 | In every interleaving in which ids of one text are of one kind, the edges over text join present nodes of the right kinds and no two have the same link |
| `TextSafety.TextIsSafeIff` | core/src/graph.rs:208-548 | Over a stock of ids that holds in all interleavings if and only if ids of one text are of one kind |
| `TextSafety.ErrorIsSwallowed` | core/src/graph.rs:426-466 | A run in which something else has the text of an error: the error is not recorded and a process is blocked by what is not an error |
| `TextSafety.ProcessIsUsed` | core/src/graph.rs:208-264 | A run in which a resource is called like a process: an edge enters a process |
| `TextSafety.ProcessIsReplaced` | core/src/graph.rs:140-169 | A run in which a signal has the text of a process and takes its place |
| `Naming.ProbePid` | core/src/graph.rs:276-326 | A drop event named after a process is about that process and the network as a whole |
| `Naming.SignedProbePid` | core/src/graph.rs:319-326 | A sign in front of the number makes no difference |
| `Naming.HugeProbePid` | core/src/graph.rs:319-326 | A number too high for 32 bits is about no process |
| `Naming.JunkProbePid` | core/src/graph.rs:319-326 | Neither is a name without a number |
| `Dedup.DedupStore.Accept` | hub/src/dedup.rs:9-23 | Prunes expired keys, then accepts exactly when the key is absent |
| `Dedup.StoreIsAlive` | hub/src/dedup.rs:14-22 | For any order of arrival the store holds exactly the keys of accepted events that nothing handled since has outlasted by a window, with their timestamps |
| `Dedup.AcceptedIff` | hub/src/dedup.rs:14-22 | An event is accepted if and only if no earlier accepted event with its key is still within the window of everything handled since |
| `Dedup.RepeatAccepted` | hub/src/dedup.rs:14-22 | An exact repeat is accepted again only if something handled strictly in between was more than a window later, and then it is unless it was accepted in between |
| `Dedup.StoreIsWindow` | hub/src/dedup.rs:16-21 | With non-decreasing timestamps the store is exactly the accepted keys inside the window of the newest event |
| `Dedup.FirstOfKey` | hub/src/dedup.rs:14-22 | When all timestamps lie within one window exactly the first event of each key is accepted |
| `Forwarder.HubForwarder.ForwardEvent` | agent/src/hub_forwarder.rs:268-296 | One send: stamps the node id; what reaches the hub and what is reported are up to the network |
| `Forwarder.HubForwarder.FlushPendingEvents` | agent/src/hub_forwarder.rs:333-343 | Sends the queue from its front until it is empty or a send fails, putting the failed event back |
| `Forwarder.HubForwarder.EnqueuePendingEvent` | agent/src/hub_forwarder.rs:325-331 | Appends, evicting and counting the oldest event of a full queue |
| `Forwarder.HubForwarder.ForwardEventWithRetry` | agent/src/hub_forwarder.rs:299-323 | Backlog first, then the event, then queue, reconnect and flush, with the counters of each path; what that comes to is in the next rows |
| `Forwarder.ForwardAccounts` | agent/src/hub_forwarder.rs:299-343 | Under any network: the books balance; Ok means the event was sent, Err that it is the last one pending |
| `Forwarder.RunConserves` | agent/src/hub_forwarder.rs:299-343 | Over every run: offered events are, as a multiset, sent plus evicted plus pending; pending is at most 1024; the drop counter counts the evictions; queued events are sent in order of arrival |
| `Forwarder.StampIs` | agent/src/hub_forwarder.rs:268-280 | The agent's name is put on the event and nothing else changes |
| `Forwarder.FlushDelivers` | agent/src/hub_forwarder.rs:333-343 | While the network is up a flush sends the whole queue in order |
| `Forwarder.ForwardDelivers` | agent/src/hub_forwarder.rs:299-313 | While the network is up a call sends the backlog in order, then the event; nothing is left and nothing counted |
| `Forwarder.ForwardReconnects` | agent/src/hub_forwarder.rs:303-313 | If the first send of the backlog fails and the reconnect succeeds, backlog and event go out all the same; one retry and one failed flush are counted |
| `Forwarder.ForwardRetries` | agent/src/hub_forwarder.rs:311-322 | Without a backlog, a failed send is made good by a reconnect; one retry is counted |
| `Forwarder.ForwardWhileDown` | agent/src/hub_forwarder.rs:303-322 | While nothing gets through the event joins the queue, and the counters say so |
| `Forwarder.UpForGood` | agent/src/hub_forwarder.rs:299-343 | Once the network is up for good, whatever happened before, the next call empties the queue, and the wire carries the old queue and every further event in order |
| `Forwarder.UpForGoodIsOk` | agent/src/hub_forwarder.rs:299-343 | And every call returns Ok |
| `Delivery.RunDelivers` | agent/src/hub_forwarder.rs:299-343 | Every call that returned Ok has put its event on the wire, and the wire carries offered events only |
| `Delivery.EachOnce` | hub/src/main.rs:390-406 | Within one window the hub takes in each delivered event exactly once, however often it arrives |
| `Delivery.ExactlyOnce` | agent/src/hub_forwarder.rs:299-343 | End to end under any network: each offered event enters the hub graph at most once, each acknowledged one exactly once, and nothing else does |
| `Hub.HubCore.constructor` | hub/src/main.rs:110-126 | A new hub has the initial memory |
| `Hub.HubCore.HandleEvent` | hub/src/main.rs:390-406 | De-duplicates, folds into the graph and pushes to the bounded buffer |
| `Hub.HubCore.ReplayWalLine` | hub/src/wal.rs:106-137 | A line is skipped when blank, counted when corrupt or a duplicate, and otherwise taken in |
| `Hub.HubCore.ReplayWalFile` | hub/src/wal.rs:93-141 | Replays the lines of a file in order and counts the outcomes |
| `Hub.HubCore.ReplayWal` | hub/src/wal.rs:50-91 | The rotated file first, then the active one, with merged counters |
| `Hub.MergeCounts` | hub/src/wal.rs:143-148 | Counting a file on its own and merging is counting on |
| `Recovery.ReplayIsStream` | hub/src/wal.rs:93-141 | Whatever the lines, replay is the stream of the events in them; blank and corrupt lines change nothing, and the counters add up |
| `Wal.WalWriter.constructor` | hub/src/wal.rs:32-48 | Opening creates a missing active file and keeps an existing one |
| `Wal.WalWriter.Rotate` | hub/src/wal.rs:182-200 | Remove, rename and reopen |
| `Wal.WalWriter.Append` | hub/src/wal.rs:150-170 | Rotates exactly when file and line together exceed a positive limit; otherwise the line is added and nothing else changes; after a rotation it is alone and the old file is the rotated one |
| `Wal.FittingIsAppended` | hub/src/wal.rs:158-170 | An append that fits leaves the rotated file and adds the line to the active one |
| `Wal.OtherwiseRotated` | hub/src/wal.rs:160-200 | One that does not moves the active file in the place of the rotated one |
| `Wal.CrashRetains` | hub/src/wal.rs:182-200 | At every crash point of an append the two files together hold a suffix of the log, in whole lines |
| `Crashes.LogIsRetained` | hub/src/wal.rs:150-200 | After every step of every run with crashes the files hold a suffix of the log and the active file fits the limit or holds one line |
| `Crashes.AppendLosesIff` | hub/src/wal.rs:160-192 | An append, complete or stopped by a crash at any point, loses logged lines if and only if it gets as far as removing a rotated file that is not empty |
| `Crashes.FittingLogIsWhole` | hub/src/wal.rs:150-170 | A run whose offered lines fit the limit together rotates and loses nothing, whatever crashes do: the active file is the whole log |
| `Crashes.RotatedIsDisplaced` | hub/src/wal.rs:158-192 | In runs in which no crash cuts a rotation short, the rotated file and the line after it together exceed the limit |
| `Crashes.LossKeepsTheLimit` | hub/src/wal.rs:158-192 | In such runs lines are lost only when the files hold more than the limit without them |
| `Crashes.OverlongLineLosesLog` | hub/src/wal.rs:160-192 | A run in which a line longer than the limit rotates an empty active file over a rotated one that is not, and the log loses a line |
| `Crashes.EmptyActiveNeedsCrash` | hub/src/wal.rs:150-200 | In all runs without a crash in the middle of a rotation the active file is never empty once something was logged |
| `Crashes.UnlimitedLosesNothing` | hub/src/wal.rs:160-163 | Without a size limit no run loses a logged line |
| `Recovery.LinesOf` | hub/src/wal.rs:102-107 | Splitting a log file gives back the lines that were written |
| `Recovery.BufferIsNewest` | hub/src/main.rs:400-406 | The buffer is exactly the newest accepted events up to its size, at least one |
| `Recovery.GraphIsFold` | hub/src/main.rs:394-406 | The hub graph is the fold of the accepted events in order |
| `Recovery.RejectedChangesNothingIff` | hub/src/dedup.rs:14-22 | A rejected event leaves the store as it was if and only if it is at most a window later than every event still alive |
| `Recovery.TakenSuffices` | hub/src/wal.rs:119-137 | When no rejected event prunes anything, feeding a hub only what another accepted rebuilds the same memory and rejects nothing |
| `Recovery.ReplayIsExactIff` | hub/src/wal.rs:106-137 | A restart after every prefix of a stream rebuilds the memory and rejects no line if and only if no rejected event prunes anything |
| `Recovery.TimelyIsSafe` | hub/src/dedup.rs:14-22 | That holds of every stream with one timestamp per key in which no event is more than a window older than one before it |
| `Recovery.OrderedRecovers` | hub/src/wal.rs:106-137 | So a restart after any prefix of a stream in time order is exact |
| `Recovery.DisorderBreaksReplay` | hub/src/wal.rs:119-122 | Streams for which it does not hold, and the logged event that the replay rejects |
| `Recovery.ReplayRecovers` | hub/src/wal.rs:50-141 | Whatever suffix of the log is on disk, replay rejects none of it and rebuilds the memory of a hub that received that suffix; with the whole log, the memory the hub had |
| `Crashes.CrashesAreInvisible` | hub/src/wal.rs:50-141 | After any number of crashes at any point of an append, as long as no logged line was thrown away, the memory is that of a hub that never crashed and missed only the events whose line a crash prevented |
| `Crashes.OfferedIsSafe` | hub/src/wal.rs:50-141 | The condition for that holds whatever crashes do, if it holds of what was offered as `TimelyIsSafe` says |
| `Crashes.EveryBootRecovers` | hub/src/wal.rs:50-200 | Over all runs with crashes, lines lost or not: a restart at any time rejects no line on disk and rebuilds the memory of a hub that received what is on disk; the memory is always that of a hub without crashes that received what was on disk at the last start and everything since |
| `Pipeline.DeliveredGraph` | hub/src/main.rs:390-406 | The delivered graph is well-formed and is the graph of a stream that holds each acknowledged event once and no event twice |
| `Pipeline.DeliveredUnderOwnName` | agent/src/hub_forwarder.rs:268-280 | Under any network, everything an agent delivers is in the graph under its own name |
| `Pipeline.RecoveredGraph` | hub/src/main.rs:128-137 | After crashes that lost no logged line, graph, buffer and store are those of the uninterrupted hub, and the graph is well-formed |
| `Pipeline.DeliveredDespiteCrashes` | hub/src/main.rs:390-406 | Any network and any crashes together: the graph is the well-formed graph of a part of the log that holds only offered events, none twice; if no logged line was thrown away, each acknowledged event is in it exactly once unless a crash prevented its line |
| `Rollup.EdgeRollup.ShouldForward` | agent/src/hub_forwarder.rs:185-265 | The decision for one event and the new memo |
| `Rollup.ForwardedIff` | agent/src/hub_forwarder.rs:199-261 | A resource event of a process and entity is forwarded if and only if none was before, or it and the one forwarded last are compute samples that swing between below 1 and above 80 |
| `Rollup.FirstIsForwarded` | agent/src/hub_forwarder.rs:199-255 | The first utilisation, memory, storage or bandwidth report of a process on an entity is forwarded |
| `Rollup.SwingMeans` | agent/src/hub_forwarder.rs:224-226 | Samples swing exactly when one is above 80 and the other below 1 |
| `Rollup.SentFromFirst` | agent/src/hub_forwarder.rs:204-217 | Over every run, what is forwarded begins with the first event of the pair, and nothing is only if there was none |
| `Rollup.LaterOthersAreNot` | agent/src/hub_forwarder.rs:219-261 | Later storage and bandwidth events, and samples that do not parse, never are forwarded |
| `Rollup.SentAlternates` | agent/src/hub_forwarder.rs:219-230 | Over every run, a pair with more than one forwarded event has forwarded only samples, strictly alternating between above 80 and below 1 from the first |
| `Rollup.NoSwingIsLost` | agent/src/hub_forwarder.rs:219-230 | No choice of samples that swing, beginning with the first event of the pair, is longer than what was forwarded |
| `Rollup.OthersAreConstant` | agent/src/hub_forwarder.rs:186-198 | Errors, link failures, process states and drops are always forwarded; intents and actions, and reports without a process, never |
| `Glob.MatchesSinglePattern` | core/src/rules/matcher.rs:299-341 | The greedy scan accepts exactly the texts of the declarative meaning, for every text and pattern |
| `Glob.ScanParts` | core/src/rules/matcher.rs:318-340 | The cursor loop decides whether the parts match in order with the anchors |
| `Glob.MatchesPattern` | core/src/rules/matcher.rs:286-290 | With alternatives exactly the union of the trimmed alternatives is accepted |
| `Glob.GreedyIsComplete` | core/src/rules/matcher.rs:328-332 | Taking the leftmost occurrence of a part loses no match |
| `Glob.SuffixDecides` | core/src/rules/matcher.rs:335-339 | The final suffix test decides an anchored end |
| `Glob.PatternLaws` | core/src/rules/matcher.rs:284-316 | A word stands for itself, a star behind it lets anything follow, a star alone takes everything; as a value pattern a word asks to occur |
| `Glob.StarLaws` | core/src/rules/matcher.rs:307-340 | A star in front of a word asks for a suffix, stars around it for an occurrence |
| `Glob.EitherPattern` | core/src/rules/matcher.rs:286-297 | A bar joins alternatives, for patterns and value patterns |
| `Text.TrimIs` | core/src/rules/matcher.rs:286-290 | Trimming takes off blanks at both ends and nothing else |
| `Text.SplitJoin` | core/src/rules/matcher.rs:287-312 | Splitting is the inverse of joining |
| `Matcher.MatchCondition` | core/src/rules/matcher.rs:20-186 | The recursion with its scans and early returns decides whether a condition tree holds |
| `Matcher.MatchAllConditions` | core/src/rules/matcher.rs:189-202 | True exactly when every condition holds |
| `Matcher.MatchEvent` | core/src/rules/matcher.rs:32-68 | The event tests in turn decide whether the event fits |
| `Matcher.MatchAnyEdge` | core/src/rules/matcher.rs:71-103 | Finds an edge of the type whose ends fit, if there is one |
| `Matcher.MatchAnyNode` | core/src/rules/matcher.rs:104-136 | Finds a node that fits, in whatever order the nodes come |
| `Matcher.MatchAnySignal` | core/src/rules/matcher.rs:137-167 | Filters, sorts and scans newest first; the verdict is whether any node of the signal fits |
| `Matcher.MatchesValuePattern` | core/src/rules/matcher.rs:292-297 | Some alternative that is not blank occurs in the text |
| `Rules.HoldsIsMonotone` | core/src/rules/matcher.rs:20-186 | More events, edges or nodes never make a condition tree that holds fail |
| `Rules.ComparisonLaws` | core/src/rules/matcher.rs:223-282 | What each operator means for every pair of texts and value type: the order of the numbers, equality within a thousandth, text equality, containment, or nothing |
| `Rules.HigherStillHolds` | core/src/rules/matcher.rs:20-186 | A condition tree that asks for high values and holds still holds when values rise |
| `Rules.ThresholdMeans` | core/src/rules/matcher.rs:53-68 | A threshold asks for an event of the kind with a number at least that high |
| `Rules.EventNames` | core/src/rules/matcher.rs:32-36 | Each event name in a condition asks for an event of its kind |
| `Rules.TypeNames` | core/src/rules/matcher.rs:71-124 | Each edge and node type in a condition asks for an edge or node of its type |
| `Rules.MetricMeans` | core/src/rules/matcher.rs:104-136 | A metric condition asks for a node whose number exceeds the target |
| `Rules.SignalMeans` | core/src/rules/matcher.rs:137-167 | A signal condition asks for a node of the signal whose value exceeds the target |
| `Rules.EdgeMeans` | core/src/rules/matcher.rs:71-103 | An edge condition with plain ends asks for that edge |
| `Rules.NormalizeMeans` | core/src/rules/rule.rs:41-77 | The normal form of an older rule matches as its keyword says; it is rejected exactly with both or neither keyword |
| `RuleEngine.Load` | core/src/rules/mod.rs:55-131 | Fails on an id conflict, naming an id claimed twice, or on a strict-mode skip, with the number skipped, exactly when there is one; otherwise all contributed rules, with distinct ids, by descending priority and in file order within a priority |
| `RuleEngine.RulesAreGiven` | core/src/rules/mod.rs:60-92 | The rules are exactly those the files give: readable, normalized, with their own id unless it is blank, or pack and scene |
| `RuleEngine.EveryFileCounts` | core/src/rules/mod.rs:60-120 | Each file gives a rule, is counted as skipped, or has a blank id |
| `RuleEngine.SkippedIff` | core/src/rules/mod.rs:93-120 | Files are skipped exactly when some cannot be read or normalized |
| `RuleEngine.MatchRules` | core/src/rules/mod.rs:136-146 | Exactly the matching rules, in order |
| `RuleEngine.MatchingIs` | core/src/rules/mod.rs:136-146 | The matches are the rules whose conditions all hold, in order |
| `RuleEngine.MatchFirst` | core/src/rules/mod.rs:149-156 | The head of all matches, of maximal priority among them |
| `RuleEngine.MatchSimply` | core/src/rules/mod.rs:163-207 | There is an event condition, and each finds an event |
| `RuleEngine.MatchFirstSimple` | core/src/rules/mod.rs:160-219 | The first rule with an event condition whose event conditions all hold |
| `RuleEngine.SimpleIsNecessary` | core/src/rules/mod.rs:158-212 | A rule that fully matches passes the simple test exactly when it has a top-level event condition |
| `RuleEngine.SimpleMeans` | core/src/rules/mod.rs:160-207 | On every graph the simple test is the full match of the event conditions alone, of which there has to be one |
| `RuleEngine.SimpleFindsAsHigh` | core/src/rules/mod.rs:158-219 | What the simple test finds first has at least the priority of every full match with an event condition |
| `Migration.SupportsCondition` | core/src/bin/rules-migrate.rs:166-201 | Lists the obstacles in a condition tree; supported exactly when there is none |
| `Migration.SupportsAll` | core/src/bin/rules-migrate.rs:246-251 | Walks a list to its end, collecting the obstacles of all |
| `Migration.RuleDocument.MigrateRuleValue` | core/src/bin/rules-migrate.rs:203-315 | Rewrites the fields in place for each of the outcomes migrated, partial and unchanged |
| `Migration.MigrateIsIdempotent` | core/src/bin/rules-migrate.rs:214-315 | A second migration leaves every rule file as it is |
| `Migration.MigrationPreservesMeaning` | core/src/bin/rules-migrate.rs:214-315 | A rule file that can be read can be read after migration, with the same header and the same verdict on all events and graphs or the same rejection |
| `Migration.MigrationRevives` | core/src/bin/rules-migrate.rs:232-239 | Exactly which files become readable by migration; none becomes unreadable |
| `Migration.MigrationReaches` | core/src/bin/rules-migrate.rs:203-315 | Which readable files are left alone, which are partial, and that every other older one is migrated and then in the list form |
| `Migration.MigrationIsMarked` | core/src/bin/rules-migrate.rs:255-315 | What a migration leaves on record: complete or not, the conditions as they were, the obstacles; and that it touches nothing else but a missing id |
| `Migration.SupportedIff` | core/src/bin/rules-migrate.rs:166-201 | Of the conditions that can be read, exactly those without a signal can be migrated |
| `Migration.IdsAgree` | core/src/rules/mod.rs:67-77 | Migration and loading give a rule the same id: its own, or its pack and scene |
| `Signals.TrimQueue` | core/src/signals/signal.rs:175-195 | Drops exactly the expired front of the queue |
| `Signals.SignalEngine.OnEvent` | core/src/signals/signal.rs:87-142 | Runs every registered signal over the event |
| `Signals.SignalEngine.OnSample` | core/src/signals/signal.rs:90-138 | Push, trim, rate limit and emission for one signal; what is emitted is in the rows of `Emissions` |
| `Signals.EngineIsCells` | core/src/signals/signal.rs:95-100 | Over every stream, state and emissions of a signal of an entity are those of its own samples alone |
| `Signals.EngineGuarantees` | core/src/signals/signal.rs:87-142 | Over every stream of an engine: emissions of one key a step apart, and for samples in order the queue is the history cut to the window |
| `Signals.NewestSurvives` | core/src/signals/signal.rs:175-212 | For any order the newest sample survives trimming, so a gauge has a value and it lies between its kept extremes |
| `Signals.WindowIsExact` | core/src/signals/signal.rs:102-115 | For samples in order the queue is exactly the history cut to the window |
| `Signals.ValueIsOfWindow` | core/src/signals/signal.rs:197-212 | For samples in order a counter reports events in the window per second and a gauge their mean |
| `Signals.EmissionsAreSpaced` | core/src/signals/signal.rs:117-137 | Emissions of one key are at least a step apart, whatever the order of samples |
| `Emissions.EmissionsAre` | core/src/signals/signal.rs:87-142 | For samples in order: a sample emits if and only if nothing was emitted less than a step before it, and the value is the mean, or the number per second, of the samples in the window that ends there |
| `Emissions.EngineReports` | core/src/signals/signal.rs:87-142 | Over every stream in time order each signal of each entity emits exactly that for its own samples |
| `Emissions.DefaultSignals` | core/src/signals/registry.rs:9-33 | For every agent: the mean utilisation of the last minute, and the drop reports per second of the last minute that mention a retransmit or a drop in any case, at most once a second |
| `Emissions.GraphShowsLatest` | core/src/graph.rs:140-169 | After every stream each signal node shows the latest emission, with its window and unit |
| `Emissions.UtilisationIsShown` | core/src/graph.rs:140-169 | From the events to the number on the utilisation node |
| `Alerts.HighUtilisationFires` | core/src/rules/matcher.rs:137-167 | From the events to the rule: if the latest mean is over the target, the rule that asks for more fires |
| `Alerts.SignalFires` | core/src/rules/matcher.rs:137-167 | A rule about a signal fires when the number on its node is over the target |
| `ExecuteGuard.BuildPolicy` | hub/src/main.rs:546-571 | One action for each process that names its node and pid, in order, all of one kind, pids cut to 32 bits |
| `ExecuteGuard.KillsIff` | hub/src/main.rs:551-555 | Processes are killed if and only if some scene is a physical degradation, and otherwise shut down gracefully |
| `ExecuteGuard.PolicyCovers` | hub/src/main.rs:557-570 | Every process that names its node and pid gets its action |
| `ExecuteGuard.Guard.constructor` | hub/src/main.rs:686-694 | Limits of at least 1, cooldown in milliseconds saturating |
| `ExecuteGuard.Guard.TryAcquire` | hub/src/main.rs:709-714 | Takes a permit exactly when one is free |
| `ExecuteGuard.Guard.CheckAndRecordCooldown` | hub/src/main.rs:716-731 | Refuses within the cooldown, otherwise records the time |
| `ExecuteGuard.GrantedIffDue` | hub/src/main.rs:716-731 | Within a request an action is granted if and only if its cooldown was over when the request began and no earlier action of it has its node and kind |
| `ExecuteGuard.Guard.SendDue` | hub/src/main.rs:955-998 | Commands go out for exactly the actions that are due, in order |
| `ExecuteGuard.Guard.Execute` | hub/src/main.rs:944-1002 | One request sends exactly the due actions among the first allowed number; with a cooldown at most one per node, and no key goes back in time |
| `ExecuteGuard.AllRunsAreGuarded` | hub/src/main.rs:677-732 | Over all interleavings of requests, whatever their clocks and wherever they are dropped: permits are bounded, commands per request are bounded, and with a cooldown grants of one node and action are that far apart and each request commands a node at most once |
| `ExecuteGuard.AloneIsExecute` | hub/src/main.rs:944-1002 | A request that no other interferes with gets a permit, sends exactly its due actions, as one call does, and gives the permit back |
| `ExecuteGuard.GrantsAreSent` | hub/src/main.rs:716-731 | Over all interleavings there are as many grants for a node and action as commands were sent with them |

## Left out

- The indexes and the root-cause search over text: `TextGraph` has the nodes, the edge list and the cleanups over text; where no two ids are the same text, what `StateGraph` and `RootCause` prove carries over by `TextIsTyped`.
- Deadlock freedom of the graph locks: handlers and queries take them in different orders, so handlers are atomic steps and nothing is claimed about progress.
- Hash collisions of the fingerprint: the fingerprint is any function; theorems that need it to separate events assume that.
- JSON, YAML and floating point syntax: printing and parsing are parameters; one character stands for one byte of a log line.
- NaN, infinities and rounding: values are reals, so a value that is not a number does not parse in the model, while the code compares it.
- I/O errors and torn writes of the log: a line is written whole or not at all, and an append does not fail otherwise.
- Several agents at once: the hub receives one serialized stream, and the append follows the graph update of the same event.
- Node id of a connection: events reach the hub model with their node id filled in.
- Reading of leaf conditions and rule headers: any reader, as a parameter of `Migration`; a list form of the older `all` / `any` struct that the deserializer would also accept is refused by the model.
- Rule load statistics by reason, file discovery and id inference from paths: the list of rule files is a parameter.
- `POST /api/v1/fix`: it bypasses the execute guard, so the guard theorems cover the diagnose path only.
- WebSocket, HTTP, Prometheus, Kubernetes, subprocess and LLM code, eBPF and Python probes: I/O without logic of their own here.
- Scene analysis and doctor heuristics of the agent: keyword tables that would add only easy members.
