# Verified models of jcode's stateful algorithms

jcode is a coding agent with a long-running server and a command line client. This
project models the parts of it whose correctness depends on history, interleaving or
graph structure, and proves what they promise:

* **`Tarjan.dfy`, `Eades.dfy`, `CyclePlanner.dfy`** (over `Graphs.dfy`): the
  dependency-cycle planner. Tarjan's components with their stack, indices and lowlinks;
  the greedy order of Eades, Lin and Smyth; the feedback arc set read off it.
* **`TranscriptRepair.dfy`**: insertion of synthetic results for tool calls that were
  interrupted, done incrementally from a remembered scan position.
* **`CancelSignal.dfy`**: the lock-free epoch/flag/notify signal, one step per atomic
  operation, for any number of threads.
* **`TurnRegistry.dfy`**: the registry of the cancel signals of running turns.
* **`CacheTracking.dfy`**: detection of broken append-only prefixes from chained hashes,
  with the session's own hash cache and the agent's choice between the two.
* **`ModelsDebounce.dfy`**: coalescing of ModelsUpdated events.
* **`AutoPoke.dfy`**: the three `jcode run` drivers that keep sending follow-ups.

`dafny verify dfyconfig.toml` checks everything.

## How the models are built

Code that changes fields is a class whose methods are proved against a function of the
old state (`Tarjan.Search`, `TranscriptRepair.Agent`, `TurnRegistry.Registry`,
`CacheTracking.CacheTracker`, `CacheTracking.Session`); loops over local variables are
methods with invariants. The two concurrent protocols are state machines: a run is a
list of (thread, action) pairs, an action that does not fit changes nothing, and the
theorems hold for every list. Iteration over a Python set or a sorted list picks any
remaining element, so every order is covered, the sorted one included.
What a result means is told from the data itself (blocks of a message, edges and reference
counts of a graph, the two base hash functions, statuses and scores of todos, the steps an
observer sees), in definitions that the modelled operations do not call.

Choices that fix the scope:

* Repair: between two repairs messages may be appended, tracking may be reset, and the
  transcript may be replaced; a repair after a replacement must find it shorter than the
  scan position or see a reset first. `RepairEqualsRescanIff` says exactly what happens
  for any remembered state, and `ReplaceWithoutResetDiffers` reaches a state where it fails.
* Registry: each call, a cancel with all its fires included, is one step.
* Debounce: coverage holds for every interleaving and any lateness. If no time passes between a
  call's steps and no timer is later than `late`, each call is announced at once or 750 ms after
  the event before it, plus at most `late`, whatever the runtimes and the order of calls and
  timers (`AnnouncedInTime`). The
  recorded times are spaced exactly when no second lock block runs before the debounce time is
  over (`RecordsSpacedIff`, no timing assumption), and so are the events themselves if no time
  passes between a call's steps (`EventsSpacedIff`). With a runtime the only cause is a call that
  finds a publish pending although 750 ms have gone by: the branch at
  `crates/jcode-base/src/bus.rs:450` sends without looking at `publish_pending`
  (`OrderlyRecordsSpaced`, `OrderlyEventsSpaced`); there is no such call when timers run when
  due and before a new call (`PromptRunsSpaced`).
  `LateTimerBreaksSpacing`, `MissingRuntimeBreaksSpacing` and `SlowCallBreaksSpacing` are runs
  from the start in which each assumption fails and the events come too close; the slow call
  needs neither a late timer nor a missing runtime.
* Eades: one row of edges per node, no edge leaving the nodes, no self edge, which is what
  `scripts/analyze_root_crate.py:425-428` builds.
* Epochs, tokens and turn counters do not wrap. Hashes are 64-bit values and the hash
  functions are arbitrary.
* A run of the auto-poke drivers is seen over any finite list of turns; a run that is not
  over by then is reported as still running.

Where code and comments differ, the code is followed:

* The comment on `reset_if_epoch` says that true means the reset was applied. The flag may
  still end up set without any new fire: the flag store of a fire may come later
  (`ResetCanBeOvertaken`), or an older reset, past its first check when a newer fire came,
  clears late, sees the newer epoch and restores a cancel that was already reset
  (`StaleResetRestores`, a spurious cancel). `RestsSetIff` says exactly when this can happen
  from any state, `ResetsStandIff` exactly which runs keep every reset in force, and on those
  the flag at rest is exact (`FlagExact`). Calls that do not overlap are such runs
  (`SeparateCallsStand`).
* Dropping a guard clears its signal even if another live guard holds the same instance;
  `DropGuard` states the flag of every live turn afterwards.

## Model

| member | source | states |
|---|---|---|
| `Tarjan.StronglyConnectedComponents` | scripts/analyze_root_crate.py:271-315 | the components partition exactly the vertices of the graph, two vertices share one exactly when each reaches the other, and every edge leads into its own or an earlier component |
| `Tarjan.Search.StrongConnect` | scripts/analyze_root_crate.py:290-310 | one call keeps the search invariant, only extends stack, indices and components, and leaves a lowlink that is witnessed on the stack and bounds every edge into the old stack |
| `Tarjan.Search.Visit` | scripts/analyze_root_crate.py:296-301 | one successor, visited or not, keeps the invariant of the successor loop and every other lowlink |
| `Tarjan.Search.PopComponent` | scripts/analyze_root_crate.py:303-309 | pops exactly the stack from the top down to v, in that order, and clears their on-stack marks |
| `Tarjan.PopInv` | scripts/analyze_root_crate.py:302-310 | when the lowlink stayed at the index, the popped segment is one strongly connected component whose edges lead only to itself and to components already emitted |
| `Tarjan.KeepBlack` | scripts/analyze_root_crate.py:302 | when the lowlink is smaller, everything on the stack still reaches an open vertex below it |
| `Tarjan.ComponentsTheorem` | scripts/analyze_root_crate.py:271-278 | mutually reachable, duplicate-free components emitted leaves first are maximal and in reverse topological order |
| `Tarjan.NothingLeft` | scripts/analyze_root_crate.py:312-315 | once all keys are visited the stack is empty and every vertex is emitted |
| `Eades.EadesOrder` | scripts/analyze_root_crate.py:483-522 | returns a permutation of the nodes; an edge points backwards exactly when its target was picked greedily while its source remained; at a pick every remaining node has an edge into what remains and one from it, and the picked one has the best score; backward edges weigh at most half of all edges; there are none exactly when the graph is acyclic |
| `Eades.PeelSinks` | scripts/analyze_root_crate.py:501-505 | moving sinks to the right keeps the plan invariant; an unchanged pass means no sink remains |
| `Eades.PeelSources` | scripts/analyze_root_crate.py:506-511 | moving sources to the left keeps the plan invariant; an unchanged pass means no source remains |
| `Eades.BestScore` | scripts/analyze_root_crate.py:515-519 | the picked node has the largest score of those remaining |
| `Eades.ScoreSumIsBalance` | scripts/analyze_root_crate.py:515-518 | the scores of the remaining ones among the first k nodes sum to the weight leaving them less the weight entering them |
| `Eades.ScoresSumToZero` | scripts/analyze_root_crate.py:515-518 | over all remaining nodes the scores sum to zero |
| `Eades.BestScoreNonNegative` | scripts/analyze_root_crate.py:515-521 | a greedy pick never has more incoming than outgoing weight |
| `Eades.PickStep` | scripts/analyze_root_crate.py:519-521 | a greedy pick keeps the account of backward edges, the weight balance and the greedy record, and proves that a cycle exists |
| `Eades.HalfBound` | scripts/analyze_root_crate.py:431-437 | backward edges of the finished order weigh at most half of everything |
| `Eades.WalkCloses` | scripts/analyze_root_crate.py:512-521 | with no sink left among the remaining nodes there is a cycle |
| `Eades.CycleHasBackward` | scripts/analyze_root_crate.py:420-423 | every cycle has an edge that points backwards in the order |
| `Eades.BackEdges` | scripts/analyze_root_crate.py:430-437 | lists exactly the backward edges, each once and with its weight, and their total |
| `CyclePlanner.ReportCycle` | scripts/analyze_root_crate.py:405-437 | told from the graph and the reference counts, for every component of two or more modules: each reported edge is an edge of the graph inside it, listed once with its count, or 1 if none is recorded; the reported edges are exactly those backward in an order of the component; every cycle of the graph through it contains one; the total is their sum and at most half of the counts of all edges inside it |
| `CyclePlanner.ComponentHasCycle` | scripts/analyze_root_crate.py:405-406 | a component of two or more modules contains a cycle of the graph |
| `CyclePlanner.CycleStaysWithin` | scripts/analyze_root_crate.py:422-428 | a cycle of the graph that starts in a component runs along the inner edges that are built for it |
| `CyclePlanner.WeightOfRefs` | scripts/analyze_root_crate.py:425-428 | the inner edges weigh what the reference counts of the graph's edges sum to |
| `TranscriptRepair.Agent.RepairMissingToolOutputs` | crates/jcode-app-core/src/agent.rs:744-832 | the new transcript, id sets and scan position are those of the specification: unseen messages each followed by one synthetic error result per unanswered tool use, in order; the count is the growth in length |
| `TranscriptRepair.Agent.Scan` | crates/jcode-app-core/src/agent.rs:749-778 | adds the results of the unseen messages and lists their tool uses with positions |
| `TranscriptRepair.Agent.CollectMissing` | crates/jcode-app-core/src/agent.rs:780-792 | remembers every call and keeps the unanswered ids per message, in order |
| `TranscriptRepair.Agent.InsertSynthetic` | crates/jcode-app-core/src/agent.rs:796-820 | the shifting insertion positions put each message's synthetic results right behind it |
| `TranscriptRepair.Agent.ResetToolOutputTracking` | crates/jcode-app-core/src/agent.rs:834-838 | forgets ids and position, keeps the transcript |
| `TranscriptRepair.SpliceAnswers` | crates/jcode-app-core/src/agent.rs:780-820 | splicing the collected ids in equals answering message by message |
| `TranscriptRepair.AnsweredSets` | crates/jcode-app-core/src/agent.rs:798-817 | a repair makes no new tool uses and answers exactly the open ones |
| `TranscriptRepair.RepairCompletes` | crates/jcode-app-core/src/agent.rs:744-832 | after a repair every tool-use block of every assistant message has a result block with its id in a user message, and repairing again changes nothing |
| `TranscriptRepair.RepairLayout` | crates/jcode-app-core/src/agent.rs:749-820 | block by block, for every transcript: every message is kept in order and followed by one error result for each position of a tool use without a result in any user message, in the order of the positions, and by nothing else |
| `TranscriptRepair.RepairedLayout` | crates/jcode-app-core/src/agent.rs:744-820 | the same from any remembered state: what was scanned stays, the rest is laid out like that, results remembered or found in it counting as answers |
| `TranscriptRepair.OpenPositions` | crates/jcode-app-core/src/agent.rs:762-792 | the ids collected for a message are those of its open tool uses at strictly increasing positions, every such position included |
| `TranscriptRepair.CompleteIff` | crates/jcode-app-core/src/agent.rs:749-792 | the id sets of uses and results tell exactly whether every tool-use block has a result block |
| `TranscriptRepair.SyncedRepair` | crates/jcode-app-core/src/agent.rs:744-822 | with ids that match the scanned part, an incremental repair equals a full one and leaves matching ids |
| `TranscriptRepair.SecondRepairIsIdle` | crates/jcode-app-core/src/agent.rs:744-832 | a second repair inserts nothing, with or without a reset first |
| `TranscriptRepair.IncrementalEqualsRescan` | crates/jcode-app-core/src/agent.rs:744-838 | over every allowed run of appends, replacements, resets and repairs, transcripts and counts equal those of rescanning from the start each time |
| `TranscriptRepair.RepairEqualsRescanIff` | crates/jcode-app-core/src/agent.rs:745-794 | for any remembered state at all, a repair equals a rescan exactly when the position lies beyond the transcript or the remembered results agree with it on every tool use |
| `TranscriptRepair.RewriteHidesGaps` | crates/jcode-app-core/src/agent.rs:745-749 | after a rewrite of the same length without a reset, a repair inserts nothing although a rescan would |
| `TranscriptRepair.ReplaceWithoutResetDiffers` | crates/jcode-app-core/src/agent.rs:745-749 | such a rewrite is reachable and the incremental repair then differs |
| `CancelSignal.NoCancelErased` | crates/jcode-agent-runtime/src/lib.rs:50-89 | for every interleaving, with no fire or reset in flight a clear flag means nothing was fired or the newest fire was reset by name or unconditionally |
| `CancelSignal.OnlyCurrentEpochClears` | crates/jcode-agent-runtime/src/lib.rs:71-89 | without plain resets, a clear flag at rest means no fire or a conditional reset that returned true for the current epoch |
| `CancelSignal.StepKeepsCancel` | crates/jcode-agent-runtime/src/lib.rs:50-89 | in every state a cleared but live cancel has a call in flight that will set the flag or decide |
| `CancelSignal.NobodyLeftParked` | crates/jcode-agent-runtime/src/lib.rs:91-105 | for every interleaving, plain resets included, no waiter stays parked on a set flag once fires and resets are done |
| `CancelSignal.StepKeepsWakeup` | crates/jcode-agent-runtime/src/lib.rs:50-105 | in every state a parked waiter on a set flag implies a call between its flag store and its notify |
| `CancelSignal.WaiterReturnsIff` | crates/jcode-agent-runtime/src/lib.rs:91-105 | for every state and interleaving: a `notified()` call is over exactly when it was dropped, its look found the flag set, or it took a further step after a notify that came since it registered |
| `CancelSignal.NoFireNoReturn` | crates/jcode-agent-runtime/src/lib.rs:50-105 | for every interleaving from a fresh signal: as long as nothing is fired, no waiter returns, resets or not |
| `CancelSignal.StaleResetsFail` | crates/jcode-agent-runtime/src/lib.rs:77-89 | once a newer fire has begun, no call of `reset_if_epoch` reports success for an older epoch any more |
| `CancelSignal.ReportedWhileCurrent` | crates/jcode-agent-runtime/src/lib.rs:77-89 | over every stretch of every run, a newly reported reset is of an epoch that was current in it, and reports are never taken back |
| `CancelSignal.ResetCanBeOvertaken` | crates/jcode-agent-runtime/src/lib.rs:50-89 | a run in which a conditional reset returns true and the late flag store of the fire it names leaves the flag set |
| `CancelSignal.StaleResetRestores` | crates/jcode-agent-runtime/src/lib.rs:77-89 | a run in which, with no flag store of a fire outstanding, an older reset restores a cancel that the reset for the current epoch had cleared |
| `CancelSignal.RestsSetIff` | crates/jcode-agent-runtime/src/lib.rs:50-89 | for every state: without a new fire the signal can come to rest with the flag set exactly when a fire or a stale reset in flight will set it, or it is set and no reset in flight for the current epoch will clear it |
| `CancelSignal.ResetsStandIff` | crates/jcode-agent-runtime/src/lib.rs:50-89 | for every run: every reset stays in force until the next fire exactly when none takes effect in a state from which the signal can rest set |
| `CancelSignal.FlagExact` | crates/jcode-agent-runtime/src/lib.rs:50-89 | on those runs, overlapping calls included, the flag at rest is set exactly while the newest fire has not been reset |
| `CancelSignal.SeparateCallsStand` | crates/jcode-agent-runtime/src/lib.rs:50-89 | runs whose fires and resets do not overlap are among them |
| `TurnRegistry.Registry.Register` | crates/jcode-app-core/src/turn_cancel_registry.rs:53-72 | appends one live guard with a fresh token; the map keeps mirroring the live guards |
| `TurnRegistry.Registry.ActiveTurnSignals` | crates/jcode-app-core/src/turn_cancel_registry.rs:75-84 | returns the signals of the session's live guards in registration order |
| `TurnRegistry.Registry.DropGuard` | crates/jcode-app-core/src/turn_cancel_registry.rs:86-114 | removes exactly that guard, leaves no empty list, clears its own flag, keeps the flag of every other live turn exactly when it holds another instance, and touches no other signal |
| `TurnRegistry.Registry.RequestCancel` | crates/jcode-app-core/src/server/state.rs:574-599 | sets the flag of the handle and of every live turn of the session, fires the handle exactly once and every other signal exactly as often as it is registered, and touches no other signal |
| `TurnRegistry.FireOthers` | crates/jcode-app-core/src/server/state.rs:583-589 | fires each listed signal once per listing and leaves the handle's own as it is |
| `TurnRegistry.RegisterKeepsMirror` | crates/jcode-app-core/src/turn_cancel_registry.rs:56-59 | appending an entry to one session's list mirrors the new guard, for every session |
| `TurnRegistry.DropKeepsMirror` | crates/jcode-app-core/src/turn_cancel_registry.rs:88-102 | removing a token from one session's list mirrors removing its guard, for every session |
| `TurnRegistry.RetainFollowsGuards` | crates/jcode-app-core/src/turn_cancel_registry.rs:91 | filtering a list by token equals listing the guards without that token |
| `TurnRegistry.EntryHasGuard` | crates/jcode-app-core/src/turn_cancel_registry.rs:33-36 | an entry is listed for a session exactly when a live guard stands for it |
| `TurnRegistry.Signal.Fire` | crates/jcode-agent-runtime/src/lib.rs:50-54 | as a whole call: flag set and epoch one higher |
| `TurnRegistry.Signal.Reset` | crates/jcode-agent-runtime/src/lib.rs:60-62 | as a whole call: flag clear, epoch unchanged |
| `CacheTracking.PrefixHashesForMessages` | crates/jcode-base/src/cache_tracker.rs:55-67 | one hash for every non-empty prefix: the first message's hash, then each extended by the next message's, in the two base functions alone |
| `CacheTracking.PrefixHashesAreChain` | crates/jcode-base/src/cache_tracker.rs:55-67 | a list is the list of prefix hashes exactly when it is that chain |
| `CacheTracking.ChainsMeet` | crates/jcode-base/src/cache_tracker.rs:59-64 | if the chains of two different lists meet, then at some position two different messages have the same hash or two different pairs extend to the same value |
| `CacheTracking.ExtensionNeverReported` | crates/jcode-base/src/cache_tracker.rs:117-186 | a request that extends its predecessor is never reported, whatever the hash functions |
| `CacheTracking.ReportedExactly` | crates/jcode-base/src/cache_tracker.rs:117-186 | for any hash functions a report is made exactly when messages are missing or the two chains differ after the previous length |
| `CacheTracking.ReportMeansBroken` | crates/jcode-base/src/cache_tracker.rs:117-186 | a report means that the previous list is no prefix, and a broken prefix goes unreported only if one of the two base functions collides while hashing the two lists |
| `CacheTracking.AlarmsMeanBrokenPrefix` | crates/jcode-base/src/cache_tracker.rs:95-186 | along any request sequence since a reset: no false alarm, and a missed break means a collision of a base function at a position of the two lists |
| `CacheTracking.CacheTracker.RecordPrefixHashSnapshot` | crates/jcode-base/src/cache_tracker.rs:95-186 | a count and two hashes leave the state that the whole request sequence determines, history of the last ten included |
| `CacheTracking.CacheTracker.RecordPrefixHashes` | crates/jcode-base/src/cache_tracker.rs:78-93 | the same from a list of prefix hashes |
| `CacheTracking.CacheTracker.RecordRequest` | crates/jcode-base/src/cache_tracker.rs:73-76 | the same from the messages |
| `CacheTracking.CacheTracker.Reset` | crates/jcode-base/src/cache_tracker.rs:198-204 | back to the state of no requests |
| `CacheTracking.AfterOneMore` | crates/jcode-base/src/cache_tracker.rs:103-185 | the state after one more request, history sliding by one |
| `CacheTracking.Session.ProviderMessages` | crates/jcode-base/src/session.rs:1416-1451 | rebuilt, extended or reused, the cache equals the transcript and its hashes are the prefix hashes |
| `CacheTracking.Session.ProviderMessagePrefixHashes` | crates/jcode-base/src/session.rs:1453-1456 | returns the prefix hashes of the current transcript |
| `CacheTracking.Session.PushCacheEntry` | crates/jcode-base/src/session.rs:535-550 | appends a message with the hash that chains on |
| `CacheTracking.Session.AppendMessage` | crates/jcode-base/src/session.rs:1198-1206 | appends, and marks the cache as a prefix at most |
| `CacheTracking.Session.InsertMessage` | crates/jcode-base/src/session.rs:1208-1212 | inserts, and marks the cache for a rebuild |
| `CacheTracking.Session.ReplaceMessages` | crates/jcode-base/src/session.rs:1214-1218 | replaces, and marks the cache for a rebuild |
| `CacheTracking.Session.TruncateMessages` | crates/jcode-base/src/session.rs:1220-1226 | shortens only if longer, then marks the cache for a rebuild |
| `CacheTracking.Session.ReleaseProviderMessagesCache` | crates/jcode-base/src/session.rs:525-533 | empties the cache, marks it for a rebuild, keeps the transcript |
| `CacheTracking.RecordClientCacheRequest` | crates/jcode-app-core/src/agent.rs:697-734 | fast and full path leave the tracker as the full path over the recorded list would, so any mix equals the full path |
| `ModelsDebounce.EveryCallIsAnnounced` | crates/jcode-base/src/bus.rs:436-495 | for every interleaving and any timer lateness: one delayed publisher at most, pending exactly while it exists, no more events than calls, and at rest every call has an event sent after it began |
| `ModelsDebounce.StepOneDelayed` | crates/jcode-base/src/bus.rs:452-489 | every step keeps pending equivalent to a single delayed publisher |
| `ModelsDebounce.StepCoverage` | crates/jcode-base/src/bus.rs:436-495 | every step keeps each call announced, active, or owed an event by someone |
| `ModelsDebounce.RecordsSpacedIff` | crates/jcode-base/src/bus.rs:443-489 | for every run, with no timing assumption: the recorded times are at least 750 ms apart exactly when no second lock block runs before that time is over |
| `ModelsDebounce.EventsSpacedIff` | crates/jcode-base/src/bus.rs:443-495 | when no time passes between a call's steps, timers arbitrarily late and runtimes missing or not: the events are at least 750 ms apart exactly under the same condition |
| `ModelsDebounce.AnnouncedInTime` | crates/jcode-base/src/bus.rs:388-495 | when no time passes between a call's steps and no timer is later than `late`, runtimes missing or not and calls before due timers or not: each call has an event at its start or 750 ms after the event before it, whichever is later, plus at most `late`, hence within 750 ms plus `late`, or that time is not over |
| `ModelsDebounce.CanAlwaysAnnounce` | crates/jcode-base/src/bus.rs:436-495 | from every reachable state, timers late or not, the calls in flight can be brought to their end without new ones, and then each call has its event |
| `ModelsDebounce.FinishActor` | crates/jcode-base/src/bus.rs:436-495 | wherever a call or its delayed task stands, at most five steps of it and its timer bring it to its end and leave all others where they are |
| `ModelsDebounce.OrderlyRecordsSpaced` | crates/jcode-base/src/bus.rs:447-489 | however late the timers and slow the calls: with a runtime, and no call that finds a publish pending with 750 ms gone by, the recorded times are at least 750 ms apart |
| `ModelsDebounce.OrderlyEventsSpaced` | crates/jcode-base/src/bus.rs:447-495 | if further no time passes between a call's steps, however late the timers: events are at least 750 ms apart and n of them span (n-1) times that |
| `ModelsDebounce.PromptRunsSpaced` | crates/jcode-base/src/bus.rs:388-495 | with a runtime, timers that run when due and before new calls, and no time passing between a call's steps: no call overtakes a pending publish, timers are never late, and events are spaced as above |
| `ModelsDebounce.LateTimerBreaksSpacing` | crates/jcode-base/src/bus.rs:449-489 | a run from the start whose events are not spaced because the delayed task is overdue when a new call comes |
| `ModelsDebounce.MissingRuntimeBreaksSpacing` | crates/jcode-base/src/bus.rs:463-472 | a run from the start whose events are not spaced because a call finds no runtime |
| `ModelsDebounce.SlowCallBreaksSpacing` | crates/jcode-base/src/bus.rs:438-494 | a run from the start without timers whose events are not spaced because time passes between a record and its send |
| `AutoPoke.RunPlain` | src/cli/commands.rs:707-763 | sends what the shared specification of a run says and announces each follow-up |
| `AutoPoke.RunCapture` | src/cli/commands.rs:765-815 | sends the same, and returns the replies and a notice at the limit, nothing on an error |
| `AutoPoke.RunNdjson` | src/cli/commands.rs:985-1092 | sends the same, and records each follow-up and a stop at the limit |
| `AutoPoke.RunGuarantees` | src/cli/commands.rs:606-815 | whatever the turns do: never past the limit, at most one spike challenge, each follow-up the one its turn calls for, and a stop only because poking is off, the limit is hit with work left, or nothing is left to do |
| `AutoPoke.NeverPastLimit` | src/cli/commands.rs:613-617 | the limit bounds the number of messages sent |
| `AutoPoke.ChallengedAtMostOnce` | src/cli/commands.rs:719-741 | the latch lets one challenge through |
| `AutoPoke.StopIsJustified` | src/cli/commands.rs:718-761 | the reason a run reports is the true one, for every run, told from the statuses and scores of the last turn's todos, the count of open ones included |
| `AutoPoke.FollowUpsCalledFor` | src/cli/commands.rs:718-761 | for every run, each message sent after the first is the one that the todos left by the turn before it call for, given the challenges sent up to then |
| `AutoPoke.OpenCount` | src/cli/commands.rs:641-650 | the count in a poke is the number of positions whose status is neither completed nor cancelled |
| `AutoPoke.PersistsWhileOpen` | src/cli/commands.rs:742-758 | with open todos after every turn only the limit ends a run, at exactly that many turns |
| `AutoPoke.NoFollowUpIff` | src/cli/commands.rs:637-705 | no follow-up exactly when all todos are closed, every completed one has confidence 90 or more, and no spike is left unchallenged |
| `AutoPoke.FollowUpExactly` | src/cli/commands.rs:637-705 | which follow-up is made and with which count, from statuses and scores alone: open todos, else a completed one without a score of 90, else an unchallenged last rise of 15 or more |
| `AutoPoke.MaxTurns` | src/cli/commands.rs:606-611 | a limit is in force exactly when a positive one was parsed, and is that one |

## Left out

- Session persistence, logging, hooks, compaction and provider calls around the modelled functions, including the cache and tool-lock resets that follow a repair.
- Message ids, timestamps, token usage and display roles of stored messages; a message is its role and content.
- The concrete hash functions and the text of hash labels and reasons; a violation carries the hashes and counts themselves.
- Memory orderings weaker than SeqCst and the internals of tokio's Notify beyond waking whoever is registered.
- Fires that land between a cancel's snapshot of the registry and a guard's drop; they would leave that flag set.
- Poisoned locks in the registry, the queues and the bus.
- Sorting of the reported back edges, the choice of the largest cycle by lines of code, the eviction ranking, and the unused degree tables at the top of `eades_order`.
- The recursion limit of 10000 set at `scripts/analyze_root_crate.py:288`: the components theorem holds for every finite graph, while the script raises an error on searches deeper than that.
- Extraction of modules and references from Rust source by `scripts/analyze_root_crate.py`.
- Parsing of environment variables, message wording, NDJSON formatting and output errors of the drivers.
- In-place edits of stored messages (image stripping, redaction) by the session, which mark its cache for a rebuild like the edits modelled here.
- Everything else in the repository (server loops, tools, providers, swarm, memory): not part of this model.
- ModelsDebounce.AnnouncedInTime: assumes no time passing between a call's steps, because a slow call delays its own event without bound.
- ModelsDebounce.OrderlyEventsSpaced: assumes a runtime and no time passing between a call's steps, because without either the spacing is false.
- ModelsDebounce.PromptRunsSpaced: assumes in addition timers that run at their due time and before new calls; it shows that such runs meet the weaker conditions of the other theorems.
- ModelsDebounce.EventsSpacedIff: assumes no time passing between a call's steps, because a slow send breaks the spacing of events whatever is recorded.
