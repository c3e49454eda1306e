# CPP-DPOR in Dafny

A model of the DPOR engine of CPP-DPOR (stateless model checking of message-passing programs, after Algorithm 1 and
Definition 3.5 of Enea et al., "Model Checking Distributed Protocols in Must", OOPSLA 2024) and of its two-phase-commit
example, with proofs. The engine's data structures and loops appear in their own imperative form and are proved equal to
a small specification; the specification is proved sound and complete against the exhaustive enumerator of the tests.

How the parts build on each other:

- **Specification.** `Optional`, `Events`, `Reachability`, `Consistency`: a graph is a sequence of events (position = event id =
  insertion order) and a reads-from map; causality is reachability over program order and reads-from; the two
  consistency models. `Replay`: every event is what its thread function answers on the thread's own past.
  `Subgraphs`: what copying a part of a graph keeps. `Revisits`, `Engine`: Algorithm 1 as a recursive visit.
- **Soundness.** `Invariants`: every graph the engine extends is consistent although most children are entered without a
  check. `Oracle`, `OracleSoundness`: every published Full or Blocked execution is a leaf of the exhaustive enumerator.
  `ThreadLimit`: the per-thread bound is the unbounded search on wrapped thread functions.
- **Completeness.** `Branches`: the children of a graph cover what the enumerator may do with the same thread.
  `Tracking`, `Canonical`, `Progress`: a branch of the search that performs the events of another graph, and what it may do
  beside them so that a later revisit can drop it again. `Performing`, `Redirections`, `Targets`, `Redirecting`: one step
  of such a branch, and how a receive is made to read a send that comes later. `Covering`, `OracleBranches`,
  `Completeness`: so every enumerated execution is published. `ErrorReports`: errors, and the statement of both directions.
- **The graph object.** `Journals`, `GraphCaches`, `ExplorationGraphs`: append, bind, checkpoint, rollback, restrict,
  incremental tables, the acyclicity flag. `TopologicalOrder`, `PorfClocks`: compressed rows, Kahn's algorithm with a
  stack, vector clocks. `EventIndices`: the set of used per-thread indices.
- **The checkers.** `Validation`, `CycleSearch`, `FifoChecks`, `Checkers`: the reference checker and the one that uses what
  the graph object knows report the same issues, none exactly on consistent graphs.
- **Revisits on objects.** `Tiebreakers`, `MaskedContexts`, `MaskedTiebreaker`, `TiebreakerSearch`, `RevisitSearch`: the
  tiebreaker judged on a mask agrees with rebuilding and checking the kept graph; the next revisit child.
- **The explorer.** `Machine`, `MachineRefinement`: the frame and context machine publishes what the recursive visit
  publishes. `EngineSteps`, `ExplorerFrames`, `DepthFirst`, `SearchRuns`: the explorer that mutates graph objects in place
  takes exactly the machine's steps. `Parallel`: the work-sharing protocol of any number of workers.
- **Two-phase commit.** `TwoPhaseCommit`, `CommitRuns`, `ReplayAdapter`, `AdapterRuns`, `CommitCodecs`.

The headline results are `SearchRuns.VerifyAll` (the in-place explorer publishes exactly the executions of the recursive
search, in order; all of them are sound, and they match the exhaustive enumeration),
`Completeness.RecordedIsPublished` with `ErrorReports.ErrorsAreExact` and `OracleSoundness.PublishedIsRecorded`,
`SearchRuns.DepthFirstExplorer.Run` (with an observer that may stop it, and
with the borrowed graph restored), `Parallel.ParallelSafety` with
`Parallel.RunsAreBounded` and `Parallel.EveryRunCanComplete`,
`Tiebreakers.TiebreakersAgree` with `TiebreakerSearch.CrossCheck`, `Checkers.CheckExplorationGraph`,
`PorfClocks.Contains`, `ExplorationGraphs.ExplorationGraph.Rollback`, `ThreadLimit.BoundIsWrapping`,
`CommitRuns.DecisionsAgree`, `ReplayAdapter.AnswerInStep` and `AdapterRuns.CrashBeforeDecision`.

Two places where the code and its documents differ, the code being followed: docs/non_recursive_dpor_plan.md says frames
do not cache labels, while the frames do; the enumerator keeps the alternatives of a nondeterministic choice as given,
while the engine removes repeats, so executions are compared up to the recorded alternatives.

Properties that fail as first stated, each with its exact condition (one way only for the first):

- The search does not publish every execution the enumeration records: once a thread answers with an error the branch
  ends, and executions beyond it can be missed. `ErrorReports.ErrorHidesExecutions` gives such a program under either
  model. `Completeness.RecordedIsPublished` says that nothing is missed when only complete executions are published, which
  a caller reads off the result; `ErrorReports.ErrorsAreExact` says that, within the bounds, an error is published exactly
  when the program can run into one. An error need not hide anything, so the first condition is not necessary.

- Participants of two-phase commit need not end with the coordinator's decision (`CommitRuns.OutcomesMayDiffer` gives a
  run); `CommitRuns.OutcomeMatchesExactly` says when they do.
- Packing a message into 64 bits loses participant ids from 2^56 on; `CommitCodecs.PackedRoundTrip` is an equivalence.
- The graph object's reader counts miss a source that is bound before its send exists. `GraphCaches.CountsAppended` is an
  equivalence for one append and `GraphCaches.EarlySourcesAreMissed` one for any number of appends: the counts stay right
  exactly if no appended send was already named. `GraphCaches.EarlySourceIsMissed` shows the failure at every distance.
  Binding itself is harmless, so only `AddEvent` carries the condition.
- A rollback to a checkpoint that the object never gave may drop a send that is still read and then fails;
  `ExplorationGraphs.ExplorationGraph.Rollback` says exactly when.
- Under Async a strict tiebreaker search tests for a cycle only; `TiebreakerSearch.CycleTestIsFullCheck` says that this is
  the full check exactly when no other receive lacks a source.

## Model

| member | source | states |
|---|---|---|
| Consistency.PorfWithinThread | include/dpor/model/exploration_graph.hpp:514-534 | in an acyclic graph causality within one thread is program order |
| Consistency.PorfPrefixIsClosed | include/dpor/algo/dpor.hpp:611-632 | a causal prefix is closed under causal predecessors |
| Reachability.EdgesIntoSink | include/dpor/model/exploration_graph.hpp:944-952 | edges into a node without outgoing edges close no cycle |
| Reachability.RewiringCycle | include/dpor/algo/dpor.hpp:936-951 | replacing the edges into a node by one edge closes a cycle exactly when the node already reached the new source |
| Reachability.EdgesIntoNode | include/dpor/algo/dpor.hpp:611-632 | edges into a node change neither what it reaches nor what leads to where it does not |
| Events.TerminatedMeans | include/dpor/model/exploration_graph.hpp:324-334 | a thread is terminated exactly when it has come to a Block or an Error and done nothing since |
| Subgraphs.SubgraphClauses | include/dpor/model/consistency.hpp:335-427 | any per-thread prefix of a FIFO-consistent graph satisfies clauses (b) and (c), missing reads aside |
| Subgraphs.CausalCopyIsConsistent | include/dpor/model/exploration_graph.hpp:762-822 | a copy closed under program order and reads-from is consistent under the same model |
| Subgraphs.TraceCopied | include/dpor/model/exploration_graph.hpp:386-424 | such a copy leaves every thread's observed trace unchanged |
| Replay.CausalCopyReplays | include/dpor/algo/dpor.hpp:541-609 | such a copy is replay-valid when the graph was |
| Replay.TraceAppended | include/dpor/model/exploration_graph.hpp:380-423 | an appended event adds to its own thread's trace and step count and to no other |
| Replay.TraceGrows | include/dpor/model/exploration_graph.hpp:403-420 | a choice adds the value chosen, a send, Block or error adds nothing, and other threads learn nothing |
| Replay.TraceReceives | include/dpor/model/exploration_graph.hpp:405-417 | a receive adds the value of the send it reads, or bottom, to its own thread's trace |
| Replay.Distinct | include/dpor/algo/dpor.hpp:465-483 | the kept choices are the given ones, each once |
| Replay.DistinctOrder | include/dpor/algo/dpor.hpp:465-483 | the kept choices stand in order of first occurrence |
| Revisits.SurvivorsReadClosed | include/dpor/algo/dpor.hpp:485-496 | a permitted revisit leaves no surviving receive reading a dropped send |
| Revisits.SurvivorsPrefixClosed | include/dpor/algo/dpor.hpp:2171-2192 | each thread keeps a program-order prefix |
| Revisits.RevisitedReceiveIsLast | include/dpor/algo/dpor.hpp:2135-2229 | everything after the revisited receive in its thread is dropped |
| Revisits.RevisitChildIsAsyncConsistent | include/dpor/algo/dpor.hpp:2135-2229 | the rebound child is well formed, total and acyclic, so under Async it is never rejected later |
| Revisits.RevisitChildReplays | include/dpor/algo/dpor.hpp:2135-2229 | the rebound child is replay-valid |
| Revisits.CurrentSourceIsAcceptable | include/dpor/algo/dpor.hpp:1217-1245 | on Previous the source a receive has is always acceptable, so "no consistent source" is unreachable |
| Revisits.OneChoiceMeets | include/dpor/algo/dpor.hpp:1271-1283 | of the alternatives of a choice exactly one meets the revisit condition, the least |
| Revisits.OneSourceMeets | include/dpor/algo/dpor.hpp:1262-1345 | of the sources a blocking receive could acceptably have exactly one meets the revisit condition; a non-blocking one meets it with bottom only |
| Revisits.ChoiceDeletedOnce | include/dpor/algo/dpor.hpp:2135-2192 | of graphs that differ in the alternative of one choice at most one permits a revisit that deletes the choice |
| Revisits.ReceiveDeletedOnce | include/dpor/algo/dpor.hpp:2135-2192 | of graphs that differ in the source of one blocking receive at most one permits a revisit that deletes the receive |
| Engine.NextIsFirstReady | include/dpor/algo/dpor.hpp:541-609 | the next event is the answer of the first thread that is not terminated, capped or done |
| Engine.SuppressedMeansCapped | include/dpor/algo/dpor.hpp:526-609 | a scan that finds nothing is flagged exactly when a live thread sits at its bound |
| Engine.SourcesAscend | include/dpor/algo/dpor.hpp:441-457 | the sources of a receive are tried in insertion order |
| Engine.ReceivesListed | include/dpor/model/exploration_graph.hpp:553-566 | a send is offered every receive of its destination, in program order, and no other |
| Invariants.AppendConsistent | include/dpor/algo/dpor.hpp:2744-2756 | a fresh send, choice or Block keeps a graph consistent under both models |
| Invariants.ChildrenPending | include/dpor/algo/dpor.hpp:2463-2596 | every child of a good graph is consistent, or lacks only the FIFO clauses and is guarded |
| Invariants.DropBlockGood | include/dpor/algo/dpor.hpp:2254-2326 | removing a trailing Block keeps a graph consistent, replay-valid and well shaped |
| Invariants.BlockedAnswer | include/dpor/algo/dpor.hpp:2274-2286 | a blocked thread asked again without its Block gives the blocking receive that blocked it |
| Invariants.RescheduleFromGood | include/dpor/algo/dpor.hpp:2254-2326 | the determinism violations are unreachable, the rescheduled graph is good, and if none is ready every blocked thread is stuck |
| Invariants.RescheduleIsFirst | include/dpor/algo/dpor.hpp:2254-2326 | the thread woken is the first whose blocked receive has a compatible unread send |
| Invariants.MaximalSound | include/dpor/algo/dpor.hpp:2496-2523 | a Full terminal has every thread done, a Blocked one leaves no blocked receive with a compatible unread send |
| Invariants.ExecutionsSound | include/dpor/algo/dpor.hpp:2329-2756 | every published graph of every kind is consistent, replay-valid and classified correctly; a published error is what a live thread answered in a good graph |
| OracleSoundness.ReplayedStep | tests/support/oracle_core.hpp:132-216 | each event of a causal schedule of a published graph is a transition the enumerator has enabled |
| OracleSoundness.CopyIsLeaf | tests/support/oracle_core.hpp:219-312 | a fully replayed maximal graph has no enabled transition and nothing to reschedule |
| OracleSoundness.PublishedIsRecorded | tests/support/oracle_core.hpp:270-312 | every Full or Blocked execution published is recorded by the enumerator up to interleaving, with the same blocked status, under both models |
| Branches.ChildrenCoverOffers | include/dpor/algo/dpor.hpp:2463-2596 | whatever the enumerator may do with the thread the engine picked, some child does, up to repeated alternatives; an error is published |
| Branches.ReceiveConsistent | include/dpor/algo/dpor.hpp:2690-2712 | a receive bound to a send that skips nothing in its channel, or to bottom, passes the guard under either model |
| Tracking.MatchedTrace | include/dpor/model/exploration_graph.hpp:380-423 | a thread that has performed the same events has seen the same |
| Canonical.CanonMeets | include/dpor/algo/dpor.hpp:1247-1345 | what a branch did beside the past of a send, choosing canonically, meets the revisit condition once the send is appended |
| Redirections.PoisedAllowed | include/dpor/algo/dpor.hpp:2135-2192 | so the send may redirect a receive performed canonically |
| Redirections.ChildConsistent | include/dpor/algo/dpor.hpp:2194-2229 | and the child passes the guard, under FIFO too, when all the receive could skip had been read |
| Covering.Redirect | include/dpor/algo/dpor.hpp:2329-2756 | the next receive of a thread can be made to read any send it accepts that does not depend on it: by a branch that performs the past of the send and a revisit |
| Completeness.Covered | include/dpor/algo/dpor.hpp:2329-2756 | for every good graph some published execution performs all its events with the same sources |
| Completeness.NoErrorAhead | include/dpor/algo/dpor.hpp:2525-2536 | in an unhindered search no thread answers with an error at any good graph |
| Completeness.RecordedIsPublished | tests/support/oracle.hpp:26-33 | when only complete executions are published, every execution the enumerator records is published up to interleaving, with the same blocked status, under both models |
| ErrorReports.ErrorsAreExact | include/dpor/algo/dpor.hpp:2525-2536 | within the bounds an error is published if and only if the enumeration can run into one |
| ErrorReports.SearchMatchesEnumeration | tests/support/oracle.hpp:26-33 | within the bounds, and without an error, the published executions are the recorded ones, both ways |
| ErrorReports.ErrorHidesExecutions | include/dpor/algo/dpor.hpp:2525-2536 | under either model a program whose search publishes an error within its bounds and misses a recorded execution |
| ThreadLimit.BoundIsWrapping | include/dpor/algo/dpor.hpp:254-265 | a bound of N events per thread publishes the same graphs in the same order as the unbounded search on wrapped thread functions, and no thread exceeds N |
| Journals.UndoTwice | include/dpor/model/exploration_graph.hpp:154-170 | rolling back in two stages is rolling back once |
| Journals.RollbackRestores | include/dpor/model/exploration_graph.hpp:154-242 | rollback undoes any later sequence of appends and bindings exactly |
| MachineRefinement.StepAdvances | include/dpor/algo/dpor.hpp:2406-2756 | one step publishes exactly the next part of what remains and brings the end closer |
| MachineRefinement.SplitDivides | include/dpor/algo/dpor.hpp:2598-2756 | what is handed to another worker and what is kept make up what there was |
| Parallel.ParallelSafety | include/dpor/algo/dpor.hpp:1667-1686 | in every interleaving the queue keeps its bound, a queued task finds a worker awake, and completion means the sequential multiset was published |
| Parallel.SearchProgresses | include/dpor/algo/dpor.hpp:1763-1820 | before completion some worker can move the search forward |
| Parallel.NobodyStranded | include/dpor/algo/dpor.hpp:1797-1820 | after completion every worker leaves, or the broadcast is still to come |
| Parallel.WorkIsBounded | include/dpor/algo/dpor.hpp:1763-1820 | no interleaving does more search work than the first task is worth |
| Parallel.RunsAreBounded | include/dpor/algo/dpor.hpp:1763-1820 | but for spurious wake-ups, every run is shorter than a number fixed by the search and the number of workers |
| Parallel.NoDeadEnd | include/dpor/algo/dpor.hpp:1763-1820 | until every worker is gone some step other than a spurious wake-up is possible |
| Parallel.EveryRunCanComplete | include/dpor/algo/dpor.hpp:1667-1686 | every run extends to one that is complete, has every worker gone and has published exactly the sequential executions |
| TopologicalOrder.CountDegrees | include/dpor/model/exploration_graph.hpp:640-656 | the first pass counts every edge once on each side |
| TopologicalOrder.PrefixSum | include/dpor/model/exploration_graph.hpp:658-660 | offsets are the prefix sums of the out-degrees |
| TopologicalOrder.FillRows | include/dpor/model/exploration_graph.hpp:662-673 | the rows hold exactly the edges |
| TopologicalOrder.Sort | include/dpor/model/exploration_graph.hpp:636-696 | Kahn's algorithm succeeds exactly on acyclic relations, and then lists every node once with sources first |
| PorfClocks.SameReach | include/dpor/model/exploration_graph.hpp:645-656 | the visited edges reach exactly what program order and reads-from reach |
| PorfClocks.OrderEvents | include/dpor/model/exploration_graph.hpp:566-569 | the sort answers whether the graph is causally acyclic |
| PorfClocks.PorfByPredecessors | include/dpor/model/exploration_graph.hpp:1030-1052 | what is before an event is, or is before, its program-order predecessor or its source |
| PorfClocks.ClockRows | include/dpor/model/exploration_graph.hpp:1018-1053 | each clock row tells for every event whether it is the row's event or causally before it |
| PorfClocks.BuildCache | include/dpor/model/exploration_graph.hpp:978-1056 | the cache flags a cycle exactly when there is one, and otherwise its rows are right, whatever order the sort picks |
| PorfClocks.Contains | include/dpor/model/exploration_graph.hpp:515-534 | the clock comparison is causal reachability |
| GraphCaches.CheckpointLasts | include/dpor/model/exploration_graph.hpp:145-170 | a checkpoint stays good for every state reached through logged operations |
| GraphCaches.CausalFreshReceive | include/dpor/model/exploration_graph.hpp:944-973 | binding the receive added last to any send closes no cycle |
| GraphCaches.NoUnderflow | include/dpor/model/exploration_graph.hpp:843-866 | the reader count never underflows |
| GraphCaches.UnreadFlag | include/dpor/model/exploration_graph.hpp:294-308 | the unread flag is what a scan of the sources would find |
| GraphCaches.CountsAppended | include/dpor/model/exploration_graph.hpp:211-220 | after an append the reader counts are right exactly unless the event is a send that an entry already names |
| GraphCaches.EarlySourcesAreMissed | include/dpor/model/exploration_graph.hpp:843-866 | over any further appends the counts stay right exactly if no appended send was named before |
| GraphCaches.EarlySourceIsMissed | include/dpor/model/exploration_graph.hpp:843-866 | a source bound any number of appends too early leaves the counts right until its send is appended, and that send flagged unread from then on |
| GraphCaches.TablesDropped | include/dpor/model/exploration_graph.hpp:881-935 | of the tail checks of a rollback only the reader count can fail, exactly on a send that is still named; otherwise the tables follow |
| GraphCaches.DescribedIsUnread | include/dpor/model/exploration_graph.hpp:154-170 | a checkpoint that describes an earlier state never makes a rollback drop a read send |
| GraphCaches.IndicesAscend | include/dpor/model/exploration_graph.hpp:194-201 | within a thread the assigned indices order the events as their ids do |
| ExplorationGraphs.ExplorationGraph.constructor | include/dpor/model/exploration_graph.hpp:103-103 | a new object is the empty graph with right tables and the flag set |
| ExplorationGraphs.ExplorationGraph.CopyOf | include/dpor/model/exploration_graph.hpp:104-114 | a copy has the same graph and flag, right tables and empty logs |
| ExplorationGraphs.ExplorationGraph.AddEvent | include/dpor/model/exploration_graph.hpp:173-225 | appends and logs the event with the next index of its thread; every table still equals a fresh scan exactly unless the event is a send that an entry already names |
| ExplorationGraphs.ExplorationGraph.SetReadsFromSource | include/dpor/model/exploration_graph.hpp:231-242 | binds and logs any source, existing or not; tables equal a fresh scan; the flag survives exactly on the fresh-receive path |
| ExplorationGraphs.ExplorationGraph.TakeCheckpoint | include/dpor/model/exploration_graph.hpp:145-152 | the checkpoint describes the current state |
| ExplorationGraphs.ExplorationGraph.UndoLastRead | include/dpor/model/exploration_graph.hpp:868-879 | takes back the last logged binding, tables included |
| ExplorationGraphs.ExplorationGraph.UndoLastEvent | include/dpor/model/exploration_graph.hpp:881-935 | takes back the last logged append, tables and next index included; fails exactly on a send that is still named |
| ExplorationGraphs.ExplorationGraph.Rollback | include/dpor/model/exploration_graph.hpp:154-170 | events, sources, logs, tables, next indices and flag are those of the checkpoint; refused exactly when its marks exceed the logs, and then nothing changes; fails exactly when a send it would drop is still read |
| ExplorationGraphs.ExplorationGraph.MarkKnownAcyclic | include/dpor/model/exploration_graph.hpp:545-548 | sets the flag, given that the graph is acyclic and its entries well formed |
| ExplorationGraphs.ExplorationGraph.EnsureCache | include/dpor/model/exploration_graph.hpp:978-1056 | builds right clocks, and refuses exactly on malformed entries |
| ExplorationGraphs.ExplorationGraph.PorfContains | include/dpor/model/exploration_graph.hpp:515-534 | answers causal reachability; refused exactly on unknown events, malformed entries or a cycle |
| ExplorationGraphs.ExplorationGraph.HasCausalCycle | include/dpor/model/exploration_graph.hpp:572-575 | answers whether there is a cycle |
| ExplorationGraphs.ExplorationGraph.HasCausalCycleWithoutCache | include/dpor/model/exploration_graph.hpp:567-569 | gives the same answer from the sort alone |
| ExplorationGraphs.ExplorationGraph.ClearHistory | include/dpor/model/exploration_graph.hpp:703-706 | forgets the logs and nothing else |
| ExplorationGraphs.ExplorationGraph.CopyWithSource | include/dpor/model/exploration_graph.hpp:708-719 | a fresh copy with one source changed, whether or not the source exists |
| ExplorationGraphs.ExplorationGraph.WithBottomRf | include/dpor/model/exploration_graph.hpp:461-465 | reading bottom keeps the flag for a receive |
| ExplorationGraphs.ExplorationGraph.RebindRf | include/dpor/model/exploration_graph.hpp:480-496 | rebinds in place, exactly on objects without history, to any id |
| ExplorationGraphs.ExplorationGraph.MapKept | include/dpor/model/exploration_graph.hpp:768-780 | kept ids ascending and where each goes |
| ExplorationGraphs.ExplorationGraph.RestrictFromKeepMask | include/dpor/model/exploration_graph.hpp:762-822 | the kept events renumbered with the sources that are kept too, flag preserved, tables right |
| ExplorationGraphs.CausalRestricted | include/dpor/model/exploration_graph.hpp:815-821 | restriction keeps the promise of the acyclicity flag |
| ExplorationGraphs.ExplorationGraph.ThreadTraceInto | include/dpor/model/exploration_graph.hpp:386-424 | the thread's trace, whatever the reused buffer held |
| ExplorationGraphs.ExplorationGraph.CompatibleUnreadSends | include/dpor/algo/dpor.hpp:443-456 | exactly the compatible unread sends, ascending |
| ExplorationGraphs.ExplorationGraph.ReceivesInDestination | include/dpor/model/exploration_graph.hpp:553-564 | the receives of the destination thread, refused for a non-send |
| ExplorationGraphs.ExplorationGraph.ThreadIsTerminated | include/dpor/model/exploration_graph.hpp:324-331 | the thread's last event is a Block or an Error |
| ExplorationGraphs.ExplorationGraph.ThreadEventCount | include/dpor/model/exploration_graph.hpp:351-357 | the number of the thread's events |
| ExplorationGraphs.ExplorationGraph.HasBlockedThread | include/dpor/model/exploration_graph.hpp:338-348 | some thread ends in a Block |
| EventIndices.UsedEventIndexSet.Contains | include/dpor/model/execution_graph.hpp:195-197 | membership in the represented set |
| EventIndices.UsedEventIndexSet.Insert | include/dpor/model/execution_graph.hpp:199-206 | adds an absent index, the saturated maximum included |
| EventIndices.UsedEventIndexSet.AbsorbSparse | include/dpor/model/execution_graph.hpp:237-249 | absorption changes the representation and not the set |
| EventIndices.UsedEventIndexSet.Erase | include/dpor/model/execution_graph.hpp:209-226 | removes exactly the index and says whether it was there |
| EventIndices.UsedEventIndexSet.FirstFree | include/dpor/model/execution_graph.hpp:509-523 | the first unused index from a start on, or none up to the maximum |
| EventIndices.ThreadIndices.AddEvent | include/dpor/model/execution_graph.hpp:267-270 | the event gets the next index, indices stay strictly ascending; refused exactly when the maximum is used |
| EventIndices.ThreadIndices.AddEventWithIndex | include/dpor/model/execution_graph.hpp:274-292 | an imported index is refused exactly when used or out of order |
| EventIndices.ThreadIndices.RollbackLast | include/dpor/model/execution_graph.hpp:473-498 | takes the last index back with the next index it found; the missing-index failure is unreachable |
| EventIndices.AppendsTakenBack | include/dpor/model/execution_graph.hpp:473-498 | taking back any number of appends restores the indices and the next index |
| EventIndices.ThreadIndices.RollbackTo | include/dpor/model/exploration_graph.hpp:163-165 | taking events back until some number is left restores the state there |
| Validation.CleanValidation | include/dpor/model/consistency.hpp:76-202 | the validation pass is silent exactly on well-formed graphs whose untolerated receives all read |
| Validation.EntryCodes | include/dpor/model/consistency.hpp:95-190 | one entry reports a code exactly when it has the fault the code names |
| Validation.EntryOrder | include/dpor/model/consistency.hpp:95-190 | an entry's codes stand in the order of the tests, and only an invalid reference can be reported twice |
| Validation.ValidationCodes | include/dpor/model/consistency.hpp:76-202 | each of the codes is in the list exactly when some entry or receive has its fault |
| Validation.ScanEntries | include/dpor/model/consistency.hpp:95-190 | the issue list of the entries in order, each code present exactly when some entry has its fault; the safety flag, the valid edges and the source table |
| Validation.ValidateGraph | include/dpor/model/consistency.hpp:76-202 | the issue list of both passes, each code present exactly when its fault is |
| Validation.HasCausalCycle | include/dpor/model/consistency.hpp:211-252 | reports a cycle exactly when program order and the valid reads have one |
| CycleSearch.Explore | include/dpor/model/consistency.hpp:230-243 | a search from a node finds a cycle or finishes it with all its successors |
| CycleSearch.HasCycle | include/dpor/model/consistency.hpp:229-252 | the three-colour search answers whether there is a cycle |
| FifoChecks.CleanFifo | include/dpor/model/consistency.hpp:430-435 | no FIFO issue exactly when both clauses hold |
| FifoChecks.GroupSends | include/dpor/model/consistency.hpp:289-306 | each channel's sends, ascending and complete |
| FifoChecks.SendConsumers | include/dpor/model/consistency.hpp:309-332 | on any graph, the last receive that properly reads each send; other entries are skipped |
| FifoChecks.LastIsReader | include/dpor/model/consistency.hpp:309-332 | on a well-formed graph that is the only reader |
| FifoChecks.BreaksAt | include/dpor/model/consistency.hpp:341-374 | the inner loops report a send exactly when it breaks the clause with an earlier one |
| FifoChecks.ClauseIssues | include/dpor/model/consistency.hpp:335-427 | one issue for each send that breaks the clause, whatever order channels are visited in |
| FifoChecks.CheckFifo | include/dpor/model/consistency.hpp:430-435 | the issues of both clauses |
| Checkers.NoIssuesMeansConsistent | include/dpor/model/consistency.hpp:438-446 | no issue exactly when the graph is consistent, tolerated receives aside |
| Checkers.FifoCodes | include/dpor/model/consistency.hpp:335-435 | each FIFO code is reported exactly when its clause fails |
| Checkers.IssueCodes | include/dpor/model/consistency.hpp:438-446 | every code of the whole list is there exactly when its fault is |
| Checkers.CheckExecutionGraph | include/dpor/model/consistency.hpp:438-446 | the reference checker's issue list, empty exactly on consistent graphs, each code present exactly when its fault is |
| Checkers.CheckAsyncExploration | include/dpor/model/consistency.hpp:266-286 | the same list when the cycle query is skipped or answered by the clocks, each code exactly for its fault; sets the flag rightly |
| Checkers.CheckExplorationGraph | include/dpor/model/consistency.hpp:449-457 | the exploration checker reports exactly the reference checker's issues on every graph, each code exactly for its fault |
| Tiebreakers.RewrittenIsAcyclic | include/dpor/algo/dpor.hpp:943-951 | rebinding a kept receive closes a cycle exactly when it reaches the new source through kept events |
| Tiebreakers.ClausesCopied | include/dpor/algo/dpor.hpp:759-769 | the FIFO clauses on a mask are those of the restricted graph |
| Tiebreakers.VerdictsAgree | include/dpor/algo/dpor.hpp:759-769 | for any mask, the masked verdict on a candidate is the full check on the rebuilt and rebound graph |
| Tiebreakers.TiebreakersAgree | include/dpor/algo/dpor.hpp:1101-1245 | masked and reference tiebreaker choose the same send, under both models |
| Tiebreakers.NoneInBoth | include/dpor/algo/dpor.hpp:1231-1245 | one finds no source exactly when the other finds none |
| MaskedContexts.ListKept | include/dpor/algo/dpor.hpp:685-698 | the kept events of each thread and their places |
| MaskedContexts.ListReaders | include/dpor/algo/dpor.hpp:724-756 | on any graph, all kept readers of each kept send, and the last one that fits |
| MaskedContexts.SameReach | include/dpor/algo/dpor.hpp:895-918 | following immediate successors reaches what the kept edges reach |
| MaskedContexts.Search | include/dpor/algo/dpor.hpp:802-825 | the breadth-first search marks exactly what is reachable |
| MaskedTiebreaker.MaskedContext.Reset | include/dpor/algo/dpor.hpp:662-757 | for any graph the tables describe the graph and the mask; refused exactly on a mask of another size |
| MaskedTiebreaker.MaskedContext.ReachableFrom | include/dpor/algo/dpor.hpp:802-825 | kept causal reachability, refused exactly for a dropped event |
| MaskedTiebreaker.MaskedContext.FifoRewriteViolates | include/dpor/algo/dpor.hpp:770-791 | the verdict of both clauses on the rewritten graph; the temporarily rewritten table is restored |
| MaskedTiebreaker.AnyBreaks | include/dpor/algo/dpor.hpp:833-893 | a clause is reported violated exactly when some pair violates it |
| TiebreakerSearch.SortCandidates | include/dpor/algo/dpor.hpp:1207-1213 | the same candidates in ascending order of (sender thread, id) |
| TiebreakerSearch.TiebreakerIsLeast | include/dpor/algo/dpor.hpp:1207-1245 | the tiebreaker is the acceptable candidate of the least sender thread, and of that thread the least id |
| TiebreakerSearch.EligibleIsLeast | include/dpor/algo/dpor.hpp:1019-1095 | so is what the search on the rebuilt graph finds among the candidates that pass |
| TiebreakerSearch.GetConsTiebreakerMasked | include/dpor/algo/dpor.hpp:1137-1245 | of the acceptable candidates the one with the least sender thread, then least id; refused exactly for an unfit receive or when none is acceptable |
| TiebreakerSearch.GetConsTiebreaker | include/dpor/algo/dpor.hpp:987-1095 | of the candidates that pass the one with the least sender thread, then least id: by the full check, tolerant or strict, or the cycle test alone for the strict Async search |
| TiebreakerSearch.TolerantIsReference | include/dpor/algo/dpor.hpp:1101-1134 | the tolerant search is the reference tiebreaker |
| TiebreakerSearch.CycleTestIsFullCheck | include/dpor/algo/dpor.hpp:1057-1071 | the cycle test decides Async consistency of the rewritten graph exactly when no other receive lacks a source |
| TiebreakerSearch.GetConsTiebreakerViaRestriction | include/dpor/algo/dpor.hpp:1101-1134 | rebuilding, searching and translating back gives the masked tiebreaker, the least by sender thread and id |
| TiebreakerSearch.CrossCheck | include/dpor/algo/dpor.hpp:1228-1243 | the build that compares both searches never sees them disagree |
| RevisitSearch.PreviousSet | include/dpor/algo/dpor.hpp:613-632 | the Previous set |
| RevisitSearch.MeetsRevisitCondition | include/dpor/algo/dpor.hpp:1253-1334 | the revisit condition, its internal errors unreachable on consistent graphs |
| RevisitSearch.Survivors | include/dpor/algo/dpor.hpp:2171-2192 | the complement of Deleted, unless a dropped event forbids the revisit |
| RevisitSearch.MaterialiseChild | include/dpor/algo/dpor.hpp:2194-2222 | the survivors rebuilt with the receive rebound, with the flag the graph had |
| RevisitSearch.NextBackwardRevisitChild | include/dpor/algo/dpor.hpp:2135-2229 | the next permitted revisit from a position on, its child with the flag the graph had, and where to continue |
| EngineSteps.IsConsistent | include/dpor/algo/dpor.hpp:459-463 | consistency under the configured model |
| EngineSteps.ComputeNextEvent | include/dpor/algo/dpor.hpp:541-609 | the next event of the specification |
| EngineSteps.FindReschedule | include/dpor/algo/dpor.hpp:2254-2326 | the rescheduled graph of the specification |
| EngineSteps.EraseDuplicateChoices | include/dpor/algo/dpor.hpp:470-483 | in place, the distinct choices in order of first occurrence |
| ExplorerFrames.UnderOkAgrees | include/dpor/algo/dpor.hpp:2075-2100 | changes above a checkpoint leave the frames below it valid |
| DepthFirst.HandleEnter | include/dpor/algo/dpor.hpp:2463-2596 | an Enter frame takes the machine's step on the graph object |
| DepthFirst.HandleResumeChoice | include/dpor/algo/dpor.hpp:2598-2654 | a choice frame takes the machine's step, rolling back first |
| DepthFirst.HandleResumeReceive | include/dpor/algo/dpor.hpp:2656-2716 | a receive frame takes the machine's step, bottom last |
| DepthFirst.HandleResumeRevisits | include/dpor/algo/dpor.hpp:2718-2756 | a revisit frame takes the machine's step |
| DepthFirst.EndOfThreads | include/dpor/algo/dpor.hpp:2496-2523 | reschedules, or publishes with the right kind |
| SearchRuns.Handle | include/dpor/algo/dpor.hpp:2406-2434 | dispatch on the topmost frame is the machine's step |
| SearchRuns.DepthFirstExplorer.StepOnce | include/dpor/algo/dpor.hpp:2406-2434 | one turn of the loop is one step of the machine |
| SearchRuns.DepthFirstExplorer.UnwindOnce | include/dpor/algo/dpor.hpp:2383-2404 | unwinding pops the topmost frame and rolls its graph back where the frame holds a checkpoint |
| SearchRuns.DepthFirstExplorer.Run | include/dpor/algo/dpor.hpp:2339-2454 | publishes the visit's executions in order up to the one the observer stops at, terminates, and leaves the borrowed graph as found |
| SearchRuns.CutIsPrefix | include/dpor/algo/dpor.hpp:1405-1413 | a stopped search published a prefix of the whole |
| SearchRuns.Verify | include/dpor/algo/dpor.hpp:2824-2834 | the sequential entry point publishes the executions up to the stop |
| SearchRuns.VerifyAll | include/dpor/algo/dpor.hpp:2824-2834 | without a stop it publishes exactly the executions of the recursive search, all sound; within the bounds they tell exactly whether an error can be run into and, if not, are exactly the enumerated executions |
| TwoPhaseCommit.Coordinator.Start | examples/two_phase_commit_timeout/protocol.hpp:167-182 | the new state and the effects in order |
| TwoPhaseCommit.Coordinator.Receive | examples/two_phase_commit_timeout/protocol.hpp:186-230 | the new state, effects and outcome in each phase, the injected failure included |
| TwoPhaseCommit.Coordinator.BroadcastDecision | examples/two_phase_commit_timeout/protocol.hpp:260-267 | one decision message per participant, then the acknowledgement timer |
| TwoPhaseCommit.Coordinator.OnVoteTimeout | examples/two_phase_commit_timeout/protocol.hpp:242-250 | aborts while collecting votes and does nothing otherwise |
| TwoPhaseCommit.Coordinator.OnAckTimeout | examples/two_phase_commit_timeout/protocol.hpp:252-258 | finishes while collecting acknowledgements |
| TwoPhaseCommit.Participant.Receive | examples/two_phase_commit_timeout/protocol.hpp:305-334 | votes on Prepare, records and acknowledges a decision |
| TwoPhaseCommit.Participant.OnDecisionTimeout | examples/two_phase_commit_timeout/protocol.hpp:343-351 | aborts locally while waiting for the decision |
| CommitRuns.NextInv | examples/two_phase_commit_timeout/protocol.hpp:156-359 | every delivery and timeout keeps the protocol invariant |
| CommitRuns.DecisionsAgree | examples/two_phase_commit_timeout/protocol.hpp:156-359 | in every run all decision messages ever sent carry one value |
| CommitRuns.CommitIsUnanimous | examples/two_phase_commit_timeout/protocol.hpp:186-212 | Commit is sent only if every participant voted Yes and the vote timer never expired |
| CommitRuns.CrashIsSilent | examples/two_phase_commit_timeout/sim/crash_before_decision.hpp:243-254 | after a crash no participant has or gets a decision |
| CommitRuns.OutcomeMatchesExactly | examples/two_phase_commit_timeout/protocol.hpp:320-351 | a finished participant has the coordinator's decision exactly unless it timed out on a commit |
| CommitRuns.OutcomesMayDiffer | examples/two_phase_commit_timeout/protocol.hpp:343-351 | a run in which two participants end differently |
| ReplayAdapter.AdvanceSound | examples/two_phase_commit_timeout/sim/crash_before_decision.hpp:155-171 | no operation makes a second timer active or fires a missing one |
| ReplayAdapter.ReplayIsCoherent | examples/two_phase_commit_timeout/sim/crash_before_decision.hpp:103-232 | replaying a coherent past never fails, answers the next operation, and reads exactly what that past observed: whatever follows in the trace is left |
| ReplayAdapter.EarlierStep | examples/two_phase_commit_timeout/sim/crash_before_decision.hpp:125-153 | at step k of a coherent past the replay has read exactly what the first k operations observed |
| ReplayAdapter.PerformSend | examples/two_phase_commit_timeout/sim/crash_before_decision.hpp:243-254 | a send, with the crash choice before the first decision, as the machine performs it, trace consumption included; `AdapterRuns.CrashBeforeDecision` says what that rule means |
| ReplayAdapter.React | examples/two_phase_commit_timeout/protocol.hpp:186-334 | the handler methods of both objects do what the machine does with a message |
| ReplayAdapter.FireTimer | examples/two_phase_commit_timeout/sim/crash_before_decision.hpp:207-222 | the timer callbacks of both objects do what the machine does when a timer fires |
| ReplayAdapter.PerformReceive | examples/two_phase_commit_timeout/sim/crash_before_decision.hpp:139-153 | a receive or a timer firing on the protocol object, as the machine performs it, trace consumption included |
| ReplayAdapter.RunAndCapture | examples/two_phase_commit_timeout/sim/crash_before_decision.hpp:279-309 | driving the object, for every trace and step, gives the answer of its machine and leaves the same part of the trace |
| ReplayAdapter.ThreadFunction | examples/two_phase_commit_timeout/sim/crash_before_decision.hpp:311-334 | a thread function builds its object anew and answers as its machine |
| ReplayAdapter.AnswerInStep | examples/two_phase_commit_timeout/sim/crash_before_decision.hpp:311-334 | with what its own answers made it observe, a thread function answers its next operation and reads exactly those observations |
| AdapterRuns.CrashBeforeDecision | examples/two_phase_commit_timeout/sim/crash_before_decision.hpp:243-254 | in every coherent history of a crashing coordinator the crash is asked at most once, only when it has decided and sent no decision; every decision follows a declined crash; nothing follows a crash |
| AdapterRuns.StartAsInRuns | examples/two_phase_commit_timeout/protocol.hpp:167-182 | starting, the adapter's coordinator sends and becomes what the coordinator of the runs does, with the same crash flag |
| AdapterRuns.MessageAsInRuns | examples/two_phase_commit_timeout/protocol.hpp:186-229 | so it does on every message |
| AdapterRuns.TimerAsInRuns | examples/two_phase_commit_timeout/protocol.hpp:242-267 | and on every timeout |
| AdapterRuns.ParticipantAsInRuns | examples/two_phase_commit_timeout/protocol.hpp:305-335 | a participant reacts to a message as in the runs |
| AdapterRuns.ParticipantTimerAsInRuns | examples/two_phase_commit_timeout/protocol.hpp:343-351 | and to its timeout |
| CommitCodecs.PackedRoundTrip | examples/two_phase_commit_timeout/sim/bridge.hpp:19-90 | decoding an encoded message gives it back exactly for ids below 2^56 |
| CommitCodecs.TextRoundTrip | examples/two_phase_commit_timeout/protocol.hpp:60-119 | reading back the text of a message gives the message |

## Left out

- Optimality of Algorithm 1 (no execution is published twice): the other half of the paper's main theorem. What is proved of it is that exactly one alternative of a choice or source of a receive meets the revisit condition (`Revisits.OneChoiceMeets`, `Revisits.OneSourceMeets`) and that siblings do not permit the same revisit (`Revisits.ChoiceDeletedOnce`, `Revisits.ReceiveDeletedOnce`).
- Which executions an error hides, beyond that only an error or a bound can hide one.
- Progress reports, clocks, polling intervals, result counters and the maximum thread-event depth: they do not affect what is explored.
- Stop and exception wake-up of parallel workers, memory orders: `Parallel` covers runs without stop and without exception, with atomic steps.
- Parallel: the workers' searches are values of the machine that the graph-object explorer refines, and worker-local objects are not modelled again there.
- User callbacks that throw or answer with a Block label, and issue message texts: thread functions are total and never answer Block (`ValidProgram`), and only issue codes are kept.
- Payload types: payloads are integers, since the engine only compares them; program order compares event ids, which order a thread's events as its indices do (`GraphCaches.IndicesAscend`).
- `with_nd_value`, `restrict` from a set, `rf_relation` and the relation combinators: the engine records choices by appending and rolling back, restricts by mask, and asks causal questions of clocks or searches, so nothing it explores passes through them.
- Reused scratch buffers, flat clock rows, the one-slot reader table with its spill list and linear channel lookup: modelled as fresh tables, rows, lists and maps with the same contents.
- ExplorationGraphs.ExplorationGraph.AddEvent: does not refuse a thread whose 2^32 indices are used up or a thread id above 2^20 - 1, as the code does; `EventIndices.ThreadIndices.AddEvent` models the first.
- ExplorationGraphs.ExplorationGraph.Rollback: says nothing about the state a failed rollback leaves behind.
- ExplorationGraphs.ExplorationGraph.RestrictFromKeepMask: demands that every entry's receive and send exist; the code indexes a table with both unchecked.
- CommitCodecs.TextRoundTrip: signs and separators other than the space are not modelled when reading numbers and words.
- Real sockets and wall-clock timers of the two-phase-commit example.
