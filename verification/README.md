# Verification of the Toa runtime's core

This project models the concurrent and algorithmic core of the Toa runtime in Dafny and proves what it promises.
`dafny verify dfyconfig.toml` checks everything.

## What is modelled

**Entity persistence.** Components keep records in a collection with a unique `_id`. Transitions read a record,
compute a new state and write it back by compare-and-swap on `_version`; assignments are atomic `$set`/`$inc` updates;
`ensure` inserts what is not there. `Storage.dfy` and `Operations.dfy` hold the objects that do this (Storage, Entity,
Changeset, State, Transition, Assignment) and prove their methods against the specification functions of `Records.dfy`
and `Protocol.dfy`. `Protocol.dfy` is a step system: any number of clients, each with one request, every storage call one
atomic step, every interleaving a run. `ProtocolInvariant.dfy` carries the invariant, `ProtocolTheorems.dfy` the theorems
over whole runs: each write in the log is what its request does *alone* to the collection its predecessor left, versions
count writes, events stand for writes, conditional writes succeed once, only assignments revive, losers were beaten.
`Writes.dfy` says field by field what every write, event and reply holds, `Creation.dfy` who announces a creation,
`History.dfy` that a record's changesets tell its history.
`RetryBudget.dfy` shows that 32 retries always suffice for 33 contenders and not for any larger number, and
`ProtocolFailures.dfy` holds runs that show why two promises carry conditions. `Retries.dfy` is the generic `retry`,
`Difference.dfy` the changesets.

**The gateway.** `RouteTree.dfy` matches paths in a tree of routes and proves the backtracking matcher against a
declarative relation on chains of routes. `Factory.dfy` builds the tree with its save/restore directive stack,
`Gateway.dfy` merges announced branches. `Grafting.dfy` (over the general fold lemmas of `Folds.dfy`) and `Confluence.dfy`
prove that the order and repetition of announcements do not matter where branches keep apart or agree, `Versions.dfy` decides
exactly when they matter where branches share a route. `Directives.dfy` groups directives into families.

**Connectors.** `Connectors.dfy` wires the graph; `Lifecycle.dfy` and `Teardown.dfy` are step systems over every
interleaving of connecting and disconnecting a fixed acyclic graph, and `TeardownOrder.dfy` decides from the graph which
connectors can begin to close before which others.

**Other cores.** `Conveyor.dfy` (the batching queue), `Workflow.dfy` (concurrent steps in sequential units),
`Merge.dfy` (the three-mode tree merge), `Criteria.dfy` (query criteria compiled to database filters, with
`Paths.dfy` for dotted names and `Querying.dfy` for the tie to the queries of the protocol), `Transformations.dfy`
(ordered matching of file extensions to image transformations) and `Scanner.dfy` (media type detection over chunks).

## Where code and promise part

The model follows the code. Where that breaks a promise, a lemma shows a concrete run or input, and another one states
when the promise holds.

- `ensure` with an id in its properties announces the creation of one record twice (`ProtocolFailures.CreatedTwice`).
  Exactly when two events announce the same creation is `Creation.CreatedTwiceIff`.
- A transition that replaces an object by `null` has its write stand, announces nothing and fails
  (`ProtocolFailures.WriteWithoutEvent`). `difference` throws exactly on such trees (`Differences.DifferenceThrowsIff`),
  and a write is announced exactly otherwise (`ProtocolTheorems.OneEventPerWrite`).
- An item of an array that a connector depends on may close while the connector is up (`TeardownOrder.ItemsAreNotGuarded`),
  and a later `connect` does not bring it back (`TeardownOrder.ItemStaysDown`). Exactly the linked are protected
  (`TeardownOrder.LinksProtect`), and `connect` connects everything reachable exactly under `Lifecycle.ConnectConnects`.
- A dependency may begin to close before a linked dependant has closed (`TeardownOrder.DependencyMayCloseFirst`). Exactly
  when is decided by the graph and by who is asked (`TeardownOrder.BeginsIff`, `TeardownOrder.SoleDependantsCloseFirst`).
- A query's own id or version replaces a topmost comparison on the same field (`Criteria.ClashIsDropped`). Exactly when
  that loses something is `Criteria.ConjoinsIff`.
- Overwriting is not associative when a value stands between two objects (`Merging.OverwriteMayNotAssociate`); exactly when
  it is, is `Merging.OverwriteAssociates`. `add` may throw where `overwrite` the other way round succeeds
  (`Merging.AddMayThrow`); exactly when they agree is `Merging.AddIsOverwrite`.
- An optional transformation can take the extension that a required one needs (`Transformations.OptionalTakesRequired`).
  Which lists refuse only the impossible is `Transformations.RefusalsAreRightIff`.
- The size counted for a refused stream depends on how it was cut (`Scanners.ZerosAreRefused`); exactly when it does
  not is `Scanners.SizeIgnoresChunks`.
- Two versions of a component that expose one path answer by order of arrival (`Versions.TwoVersionsDisagree`): the last one's
  methods, the first one's forward (`Versions.LastArrivalDecides`). Where branches meet only at plain nodes that are not
  annotated, order is immaterial exactly when those that share a route have the same node there
  (`Versions.OrderIsImmaterialIff`). For any two branches and any trunk `Versions.EitherOrderIff` decides, and
  `Versions.RootedOrderIff` and `Versions.MixedOrderIff` spell out nodes with a root route.
- Criteria on `_id`, or on a part of `id`, select by something else than they say (`Criteria.UnderscoreIdReadsId`); exactly
  which selectors keep their meaning is `Criteria.SelectorKeepsMeaningIff`.
- A conveyor is stuck for good exactly after a processor that rejects or returns `null` (`Conveyors.StuckOnlyWhenBroken`).

## Model

The first 46 rows are the main results; then come the lemmas and invariants they rest on and the methods that are proved
against the specification functions, component by component.

| member | source | states |
|---|---|---|
| ProtocolTheorems.NoLostUpdates | runtime/core/src/transition.js:20-46 | in every interleaving the store is the fold, in commit order, of exactly the successful writes, and each of them is what its request does alone to the collection its predecessor left; no step changes the store without one log entry |
| Writes.WritesHold | runtime/core/src/transition.js:20-46 | every write of every run holds exactly what its request asked for, applied to the record that it replaced: the algorithm's data and deletion, the assigned fields over the stored ones, or the given properties over the defaults; one version further, with the same id |
| Writes.AssignmentsAreTold | runtime/core/src/state.js:93-113 | the event of every assignment carries the new state and in its changeset exactly what was set: the assigned fields, the deletion or its undoing, and the update time, but not the version |
| RetryBudget.NoneExhausts | runtime/core/src/transition.js:55-60 | if at most 33 clients each run one retrying transition on the same id and nobody else writes, none ever exhausts its 32 retries |
| RetryBudget.MoreCanExhaust | runtime/core/src/transition.js:55-60 | the bound is tight: for every larger number of clients there is a run in which one exhausts its retries |
| ProtocolTheorems.LosersWereBeaten | runtime/core/src/transition.js:31-46 | lock-freedom: between the read and the commit of an attempt that loses, another client's write to the same id succeeded |
| ProtocolTheorems.OneEventPerWrite | runtime/core/src/state.js:59-113 | a finished client with a write has announced that write exactly once, with a null origin exactly for an insertion; the sole exception is a changeset that cannot be computed, which announces nothing and fails |
| ProtocolTheorems.VersionCountsWrites | runtime/core/src/entities/entity.js:71-74 | `_version` is the number of writes to the id on top of the initial one, and every write raised it by one |
| Creation.CreatedTwiceIff | runtime/core/src/state.js:59-77 | two events of a run announce the creation of one record exactly when a client ran an `ensure` that selected an undeleted record with the id of its own candidate, and another client did so too or inserted the record |
| ProtocolTheorems.AtMostOneConditionalWrite | connectors/storages.mongodb/src/translate.js:15-19 | among all transitions and assignments that ask for version v of one id at most one succeeds in a run; it replaces version v and leaves v + 1 |
| ProtocolTheorems.OnlyAssignmentsRevive | runtime/core/src/transition.js:20-29 | no transition ever replaces a record that is deleted at the moment of its commit; only assignments do |
| History.FoldingGivesRecord | runtime/core/src/entities/entity.js:38-46 | from the state at the start of a run, or from what its insertion announced, folding the changesets of all further writes to a record, when these are transitions, gives the stored record |
| RouteTree.MatchNodeFinds | extensions/exposition/source/RTD/Node.ts:23-33 | a match is null exactly when no chain of routes is viable; otherwise it is the node at the end of the first viable chain in depth-first order, with one parameter for each named variable of just that chain, in order, holding the fragment at its own position |
| RouteTree.MatchPrefersSpecific | extensions/exposition/source/RTD/Node.ts:88-94 | at every node on the matched way no viable sibling has fewer variables, or as many variables and more segments |
| Confluence.GatewaysAgree | extensions/exposition/source/Gateway.ts:124-152 | gateways with the same protected annotation that receive the same branches, each one literal route, in any order and with duplicates, answer every path alike, if the routes are pairwise different or equal ones lead to the same unprotected node that is not annotated |
| Versions.OrderIsImmaterialIff | extensions/exposition/source/RTD/Node.ts:35-67 | when branches share routes only at plain nodes that are not annotated, all orders and repetitions of announcements answer every path alike exactly when branches that share a route have the same node there |
| Versions.EitherOrderIff | extensions/exposition/source/RTD/Node.ts:23-67 | for any two branches that share a route that is new to a gateway, the order of their arrival does not matter exactly when their nodes, merged in either order, answer alike wherever no other route of the trunk has precedence |
| Factory.DirectivesAreScoped | extensions/exposition/source/RTD/factory.ts:8-47 | every method gets its own directives, then those of its enclosing nodes from the innermost outwards, cut at the nearest isolated one; nothing of any sibling |
| DirectiveSets.Create | extensions/exposition/source/Directive.ts:57-92 | families are listed once, mandatory ones first, each with its directives in declared order; those without directives come first, the others in order of first use; the first unknown family is refused |
| Lifecycle.ConnectOpens | runtime/core/src/connector.js:84-101 | a run that cannot go on has opened and connected exactly what was reachable through unconnected connectors; what was connected still is |
| Lifecycle.ConnectConnects | runtime/core/src/connector.js:84-101 | everything reachable ends up connected exactly when nothing unconnected is reachable through connected connectors alone |
| Teardown.NothingStaysConnected | runtime/core/src/connector.js:113-145 | once all roots have begun to disconnect and nothing is left to happen, everything is closed and disposed of and nothing is connected |
| Teardown.ClosesInOrder | runtime/core/src/connector.js:125-142 | each connector begins to close once, with no known dependant connected; it has called no dependency while it is up or closing, and is disposed of after those calls |
| TeardownOrder.BeginsIff | runtime/core/src/connector.js:113-145 | for any graph and any connectors that may be asked: starting from everything connected, a connector can begin to close while given others are still up and others have not finished closing, exactly when the graph allows it |
| TeardownOrder.LinksProtect | runtime/core/src/connector.js:118-122 | a connector is protected from closing under another one, whoever is asked, exactly when that one is linked to it, directly or through others |
| TeardownOrder.SoleDependantsCloseFirst | runtime/core/src/connector.js:125-142 | when only roots are asked and no arrays are involved, a connector waits for a dependant to finish closing exactly when that is the only dependant of it or of one above it |
| Conveyors.RunsAreValid | libraries/conveyor/source/conveyor.js:24-82 | after any interleaving batches handed over followed by the pending batch are the submissions in order, one batch at most is in flight, a pending batch means busy, and exactly the units of finished calls are settled: by the result at their position, by the common one, or as mismatches exactly when the lengths differ |
| Conveyors.ReturnSettles | libraries/conveyor/source/conveyor.js:65-82 | a successful return resolves the promise of the j-th unit in flight with the j-th result, or the common one, and rejects it exactly on a length mismatch |
| Conveyors.TwoReturnsSettle | libraries/conveyor/source/conveyor.js:32-48 | a unit is settled by the second successful return after its submission at the latest |
| Workflows.EveryStepConcludes | extensions/exposition/source/directives/octets/workflows/Execution.ts:41-67 | at the end every started step has given exactly one report with a status, after all its chunks, and units are left out only after an error or exception |
| Workflows.NothingStartsAfterBad | extensions/exposition/source/directives/octets/workflows/Execution.ts:34-35 | no unit starts after one that reported an error or an exception |
| Workflows.FailureStops | extensions/exposition/source/directives/octets/workflows/Execution.ts:69-89 | once a step has returned or streamed an error, or has thrown, no other unit starts |
| Workflows.StoriesAreDeeds | extensions/exposition/source/directives/octets/workflows/Execution.ts:41-89 | the reports of every step are exactly what it returned, streamed and threw, in that order |
| Merging.OverwriteAssociates | libraries/generic/source/merge.js:45 | on plain trees in which no array meets an object and nothing nested overwrites null, overwriting never fails and is associative exactly when no value stands between two objects of which the last lacks keys of the first |
| Merging.AddIsOverwrite | libraries/generic/source/merge.js:45-46 | on plain trees `add(t, s)` succeeds with the result of `overwrite(s, t)` exactly when nothing clashes |
| Merging.StrictMerge | libraries/generic/source/merge.js:30-35 | strict merge succeeds exactly when no leaf meets a different value at a common path, and then agrees with both other modes exactly when no array with items is shared |
| Differences.DifferenceThrowsIff | libraries/generic/source/difference.js:11 | `difference` throws exactly when some field goes from an object to `null` under objects on both sides |
| Differences.ChangesOnly | libraries/generic/source/difference.js:9-13 | wherever a changeset holds a value, the two trees differ at that path and the value is the new one |
| Differences.PatchDifference | libraries/generic/source/difference.js:4-16 | patching a tree with its difference to another yields the other |
| Criteria.CompileKeepsMeaning | connectors/storages.mongodb/src/translate/criteria.js:9-54 | for every well-formed criteria, the compiled filter selects the stored form of exactly the entities that satisfy the criteria, whatever the relations mean |
| Criteria.ConjoinsIff | connectors/storages.mongodb/src/translate.js:9-22 | a translated query means the conjunction of criteria, id and version, for every record and every meaning of the relations, exactly unless its criteria are one comparison of a field it restricts other than that very restriction |
| Querying.MatchesIsSelects | connectors/storages.mongodb/src/translate.js:9-22 | what the protocol takes a query to match is what the translated query selects |
| Transformations.ChoosesEagerly | extensions/storages/source/providers/Cloudinary.ts:186-227 | the loops find an assignment exactly when it is increasing, matching, leaves only optional transformations out, and passes over no match |
| Transformations.RefusalsAreRightIff | extensions/storages/source/providers/Cloudinary.ts:177-230 | a list of transformations refuses only paths without an assignment exactly when no extension matches an optional transformation and the next required one, or some required transformation matches nothing |
| Scanners.ScanIsOneShot | extensions/storages/source/Scanner.ts:38-79 | however a stream is cut into chunks, type and error are those of one look at its first bytes; without an error the size is that of the stream |
| Scanners.SizeIgnoresChunks | extensions/storages/source/Scanner.ts:107-111 | the size does not depend on the cut exactly when there is no error or the stream is no longer than the header |
| ProtocolTheorems.VersionsRise | connectors/storages.mongodb/src/storage.js:79-92 | along the log no version ever goes down, and a later version is at least that of any earlier write to the id |
| ProtocolTheorems.LogsExtend | runtime/core/src/state.js:79-91 | what has been written is never revised: logs only grow |
| ProtocolTheorems.EventsStandForWrites | runtime/core/src/state.js:84-106 | outside `ensure` every emitted event belongs to a write of the same client and describes it |
| ProtocolTheorems.ChangesetsPatch | runtime/core/src/entities/entity.js:38-46 | patching a transition event's origin with its changeset gives the state that was written |
| History.EventsCarryChangesets | runtime/core/src/state.js:84-88 | those changesets are the ones that the events of the writes carry; an insertion carries the whole first state |
| History.WritesAreChained | connectors/storages.mongodb/src/storage.js:79-92 | every write to an id starts from what the one before it left |
| Creation.CreationsComeFrom | runtime/prototype/events/created.js:3 | a client has announced the creation of an id exactly when it is done and has inserted the id or met that guard |
| Creation.EchoingIff | runtime/core/src/state.js:67-74 | a client announces a creation without a write of its own exactly when it has met the guard |
| Creation.EchoNeedsId | runtime/core/src/state.js:63 | with a freshly drawn id the guard is met exactly by an `ensure` that is given the id of the undeleted record it selects |
| Creation.CreatedAtMostOnce | runtime/prototype/events/created.js:3 | `created` holds at most once per id in any run in which no `ensure` is given the id of an undeleted record it selects |
| Creation.CreatedOnceWithoutIds | runtime/prototype/events/created.js:3 | in particular when the properties of `ensure` carry no id and ids are drawn fresh |
| ProtocolTheorems.OneInsertPerId | connectors/storages.mongodb/src/storage.js:69-77 | at most one write of a log inserts a given id |
| ProtocolTheorems.RepliesComeFromWinners | libraries/generic/source/retry.js:8-27 | a request runs its algorithm at most 33 times, and an output it answers with is that of the attempt that wrote |
| Writes.AssignmentWrites | connectors/storages.mongodb/src/storage.js:123-143 | an assignment finds nothing only if nothing meets its query, of which a criterion on deletion counts only for assignments that delete; otherwise it changes what it found as assigned, restores it unless it deletes, and answers the given output or the new state |
| Writes.TransitionReads | runtime/core/src/transition.js:20-29 | a transition starts from an undeleted record that its query matches, or from a new one; each exception has its cause |
| Writes.TransitionWrites | runtime/core/src/transition.js:31-46 | an attempt is refused by its algorithm, writes what the algorithm made of the state, or loses exactly if the stored version is not the one it read, or the id is taken |
| Writes.LosersRetry | runtime/core/src/transition.js:40-45 | a lost attempt raises a concurrency exception at once without retries and the retries' own after the 32nd; otherwise the client reads again |
| Writes.StartAnswers | runtime/core/src/transition.js:20-29 | refusals, exceptions and read records become the client's state; nothing but an assignment that found its record changes the store here |
| Writes.CommitAnswers | runtime/core/src/state.js:81-91 | a refusal is the reply and changes nothing; a write is stored and its event is due |
| Writes.EnsureWrites | connectors/storages.mongodb/src/storage.js:145-166 | `ensure` keeps an undeleted match, announces one that has the new id, inserts the properties over the defaults at version 1 if nothing matches, or fails |
| Writes.EnsureAnswers | runtime/core/src/state.js:59-77 | it answers what is there, or the new record, whose event carries its whole state |
| Writes.RecordFields | runtime/core/src/entities/entity.js:38-46 | a record as events carry it: its system fields and its data beside them |
| ProtocolTheorems.AcquireIsExact | runtime/core/src/state.js:27-39 | what a read holds is exactly what the store has under that id |
| ProtocolTheorems.LosesToChange | connectors/storages.mongodb/src/storage.js:79-92 | a commit can lose only to a store that is not what was read |
| RetryBudget.ContendersAreCharged | libraries/generic/source/retry.js:8-27 | a contender has lost no more often than others had written before its latest read |
| ProtocolFailures.CreatedTwice | runtime/core/src/state.js:59-77 | two `ensure` requests with the same id announce its creation twice although one write happened |
| ProtocolFailures.WriteWithoutEvent | runtime/core/src/state.js:79-91 | a transition from an object to `null` writes, emits nothing and fails |
| ProtocolInvariant.RunKeepsInv | runtime/core/src/transition.js:20-46 | every step of every run keeps the invariant that links clients, store, log and events |
| ProtocolInvariant.StepEffect | runtime/core/src/operation.js:50-56 | every step other than an emission either moves one client and nothing else, or lands one lawful write |
| Retries.Retry | libraries/generic/source/retry.js:8-27 | the attempts made all asked for a retry but the last, there are at most budget + 1 of them, and the outcome is that of the last alone, or a failure when the budget is used up |
| Storages.Storage.Get | connectors/storages.mongodb/src/storage.js:39-47 | returns a record that the query selects, or nothing when none is selected |
| Storages.Storage.Add | connectors/storages.mongodb/src/storage.js:69-77 | inserts exactly when the id is free |
| Storages.Storage.Set | connectors/storages.mongodb/src/storage.js:79-92 | replaces exactly the record whose version is the preceding one |
| Storages.Storage.Store | connectors/storages.mongodb/src/storage.js:94-121 | version 1 inserts and any other version replaces; a taken id is a lost race, not an exception |
| Storages.Storage.Upsert | connectors/storages.mongodb/src/storage.js:123-143 | updates one selected record atomically, raising its version; a changeset that does not delete restores and drops a topmost criterion on `_deleted` |
| Storages.Storage.Ensure | connectors/storages.mongodb/src/storage.js:145-164 | keeps a match untouched, inserts the state when nothing matches, and answers `null` for a deleted match |
| Operations.Entity.Load | runtime/core/src/entities/entity.js:15-18 | a loaded entity has its record as origin and state, and knows whether it is deleted |
| Operations.Entity.Init | runtime/core/src/entities/entity.js:19-22 | a new entity has no origin and version 0 |
| Operations.Entity.Set | runtime/core/src/entities/entity.js:54-77 | the new state is one version up and the origin stays |
| Operations.Entity.Event | runtime/core/src/entities/entity.js:38-46 | the event carries origin, state and the difference of the two, or the whole state when there is no origin |
| Operations.Changeset.Set | runtime/core/src/entities/changeset.js:23-33 | a changeset never carries a version and always an update time |
| Operations.State.Object | runtime/core/src/state.js:27-39 | reading gives the selected record; otherwise a blank entity, a failed precondition or `null`, by association and query |
| Operations.State.Commit | runtime/core/src/state.js:79-91 | the storage decides; exactly one event goes out when it agrees and none when it does not |
| Operations.State.Apply | runtime/core/src/state.js:93-113 | one atomic update and one event with the changeset as stored, or the exception that the query calls for |
| Operations.State.Ensure | runtime/core/src/state.js:59-77 | a match under another id is returned; otherwise the candidate is inserted and announced |
| Operations.Transition.Acquire | runtime/core/src/transition.js:20-29 | the scope is what the query selects or a new entity; deleted and missing records are refused |
| Operations.Transition.Run | runtime/core/src/operation.js:69-78 | a refusal leaves the state alone, an output comes with the proposed state |
| Operations.Transition.Commit | runtime/core/src/transition.js:31-46 | a faulty reply writes nothing; a write succeeds exactly when the stored record is the predecessor; a loser retries or raises by its concurrency mode |
| Operations.Transition.Attempt | runtime/core/src/operation.js:50-56 | an undisturbed attempt is one `Alone` write of the protocol, or changes and emits nothing |
| Operations.Assignment.Process | runtime/core/src/assignment.js:7-28 | an assignment, with or without a query, is one atomic update or an exception, and answers with the new state by default |
| Differences.ComputeDifference | libraries/generic/source/difference.js:4-16 | the loop computes the changeset of two trees, and throws exactly where it is undefined |
| Differences.DifferenceIsExact | libraries/generic/source/difference.js:9-13 | a key is in the changeset exactly when its values differ, with the new one; where both are objects it is there with their own changeset |
| Differences.ChangesAll | libraries/generic/source/difference.js:9-13 | below objects on both sides a changeset holds exactly the values that differ |
| Differences.ReplayReconstructs | runtime/core/src/entities/entity.js:38-46 | folding a record's changesets in version order over its first state reconstructs its last |
| RouteTree.RouteMatch | extensions/exposition/source/RTD/Route.ts:21-38 | the loop over the segments matches as specified, whatever it leaves in the array it was given |
| RouteTree.NodeMatch | extensions/exposition/source/RTD/Node.ts:23-33 | every route works on its own copy: the caller's parameters are untouched by failed branches |
| RouteTree.MatchRouteFinds | extensions/exposition/source/RTD/Route.ts:21-59 | a route finds the first viable chain that starts with it, or there is none |
| RouteTree.ReachedAnswers | extensions/exposition/source/RTD/Route.ts:21-37 | what the matcher collects along a chain is one parameter for each named variable, in order |
| RouteTree.ParsesSpelling | extensions/exposition/source/RTD/segment.ts:15-19 | a colon makes a variable with a name, an asterisk one without, anything else a literal |
| RouteTree.VariablesOfParts | extensions/exposition/source/RTD/Route.ts:16-18 | each variable of a route counts once |
| RouteTree.SortSorts | extensions/exposition/source/RTD/Node.ts:88-94 | sorting orders routes by variables, then by segments |
| RouteTree.SortPermutes | extensions/exposition/source/RTD/Node.ts:88-94 | sorting loses no route and invents none |
| RouteTree.SortIsStable | extensions/exposition/source/RTD/Node.ts:88-94 | sorting leaves a sorted array as it is |
| RouteTree.AcceptsCons | extensions/exposition/source/RTD/Route.ts:32-37 | a chain accounts for a path exactly when its first route fits the front and the others account for the rest |
| Factory.CreateNode | extensions/exposition/source/RTD/factory.ts:8-26 | building over the mutable stack gives the tree of the scoping rule and leaves the stack as the node's own inside sees it |
| Factory.CreateRoute | extensions/exposition/source/RTD/factory.ts:28-36 | building a route restores the stack |
| Factory.NodeIsDeclared | extensions/exposition/source/RTD/factory.ts:14-25 | a built node has the declared forward, verbs and routes, is protected as declared or else as its tree, and answers through a root route exactly if it has one |
| Factory.StackIsScope | extensions/exposition/source/RTD/factory.ts:9-12 | the stack is the scoping rule for any nesting of nodes |
| Factory.BuildFollowsTheWay | extensions/exposition/source/RTD/factory.ts:28-36 | every way down the declared tree leads to the node built with the stack of exactly that way |
| Factory.BuildIsSorted | extensions/exposition/source/RTD/Node.ts:12-21 | a built tree is sorted at every level |
| Gateways.MergeNodes | extensions/exposition/source/RTD/Node.ts:35-75 | merging extends a protected node route by route and replaces any other, then sorts |
| Gateways.AppendRoutes | extensions/exposition/source/RTD/Node.ts:69-86 | each route in turn is merged into the first equal one or pushed |
| Gateways.SlotIsFirst | extensions/exposition/source/RTD/Node.ts:77-86 | a candidate is merged into the first route that equals it |
| Gateways.AppendJoins | extensions/exposition/source/RTD/Node.ts:69-86 | after pairwise different routes are appended, each present route has its equal merged into it, all others are as they were, and the rest follow in order |
| Gateways.EqualsUnnamed | extensions/exposition/source/RTD/Route.ts:39-48 | routes are equal exactly when their paths are, but for the names of variables |
| Gateways.Gateway.Create | extensions/exposition/source/RTD/Tree.ts:16-22 | the trunk is the protected annotation, built without outer directives; an unknown directive family in it is an exception |
| Gateways.Gateway.Merge | extensions/exposition/source/Gateway.ts:124-152 | a branch seen before changes nothing; a branch that cannot be built is remembered and changes nothing else |
| Gateways.IdsIdentify | extensions/exposition/source/Gateway.ts:125 | branch ids tell namespaces, components and versions apart, when namespaces have no dots and components no at signs |
| Gateways.LoadsIff | extensions/exposition/source/RTD/factory.ts:38-41 | a branch fails to load exactly when some declared method has, or is in scope of, a directive of an unknown family |
| Gateways.MergeKeepsSorted | extensions/exposition/source/RTD/Node.ts:35-44 | merging keeps every level sorted |
| Gateways.ReceivedIsSorted | extensions/exposition/source/Gateway.ts:124-152 | whatever branches arrive, the trunk stays sorted at every level |
| Grafting.OrdersAgree | extensions/exposition/source/RTD/Node.ts:35-95 | pairwise different literal routes, merged into the same sorted ones in any order, match alike, although tied routes are ordered differently |
| Grafting.AgreedRoutesAgree | extensions/exposition/source/RTD/Node.ts:35-95 | so do routes that arrive repeatedly, when equal ones are the same, unprotected and new |
| Grafting.FirstOfAll | extensions/exposition/source/RTD/Node.ts:23-33 | in a sorted trunk the answer is the better of what the annotated routes and the announced ones give |
| Versions.LastArrivalDecides | extensions/exposition/source/RTD/Node.ts:58-67 | whatever else has arrived, a path that plain branches share and the annotation leaves alone is answered with the node of the last of them to arrive first, and with the forward of the first |
| Versions.PlainOrderIff | extensions/exposition/source/RTD/Route.ts:30-36 | for two nodes that answer for themselves that is exactly when they are the same |
| Versions.RootedOrderIff | extensions/exposition/source/RTD/Node.ts:13-21 | for two nodes with root routes, where the trunk has nothing, exactly when they match everything alike |
| Versions.MixedOrderIff | extensions/exposition/source/RTD/Node.ts:13-21 | for one of each, exactly when the root route leads to the very plain node and everything else is matched alike |
| Versions.ProtectedMethodsIff | extensions/exposition/source/RTD/Node.ts:69-75 | merged into a protected node in either order, two nodes leave the same methods exactly when they agree on common verbs |
| Versions.VersionsDisagree | extensions/exposition/source/Gateway.ts:124-152 | any two versions that map one path to different endpoints answer by order of arrival |
| Versions.TwoVersionsDisagree | extensions/exposition/source/Gateway.ts:124-152 | versions 1 and 2 of one component answer the same path differently in the two orders |
| Folds.FoldIgnoresOrder | extensions/exposition/source/Gateway.ts:124-152 | a fold of pairwise exchangeable steps over distinct elements does not depend on their order |
| Folds.FoldOnceDedupes | extensions/exposition/source/Gateway.ts:127-137 | skipping seen keys is folding over first occurrences |
| DirectiveSets.Group | extensions/exposition/source/Directive.ts:70-73 | one more directive goes to the end of its family's group |
| DirectiveSets.SortKeepsFamilies | extensions/exposition/source/Directive.ts:61-62 | sorting never reorders the directives of one family |
| DirectiveSets.MandatoryComeFirst | extensions/exposition/source/Directive.ts:61-62 | after sorting no mandatory directive follows an optional one |
| DirectiveSets.SideOfParts | extensions/exposition/source/Directive.ts:61-62 | mandatory and optional directives each keep their declared order |
| Connectors.Connector.Depends | runtime/core/src/connector.js:40-61 | a single dependency is linked back |
| Connectors.Connector.DependsAll | runtime/core/src/connector.js:40-61 | an array becomes dependencies on all items and on a new barrier that all items depend on, also when the connector is among its own items; the only backlinks are the barrier's; an empty array is an error |
| Connectors.WiredOthers | runtime/core/src/connector.js:50-53 | a connector that is not among the items gets exactly the items |
| Connectors.WiredSelf | runtime/core/src/connector.js:50-53 | a connector among its own items gets the barrier directly behind itself |
| Lifecycle.OpensInOrder | runtime/core/src/connector.js:84-101 | in every interleaving from any rest state a connector is opened at most once, only if reachable through unconnected connectors, and only after `open` of all its dependencies has finished |
| Lifecycle.SupportedConnects | runtime/core/src/connector.js:84-101 | in particular when every connected connector has its dependencies connected, which then stays so |
| Lifecycle.SomeoneMoves | runtime/core/src/connector.js:89-92 | connecting never deadlocks |
| Lifecycle.RunsEnd | runtime/core/src/connector.js:84-101 | every run of connecting is finite, bounded by the graph |
| Lifecycle.RunsKeep | runtime/core/src/connector.js:84-101 | the connecting invariant holds throughout every run from any rest state |
| Teardown.SessionsAreSound | runtime/core/src/connector.js:113-145 | no connector begins to close while a dependant that it knows of is connected; whoever stays up has a dependant that is up or has yet to call it |
| TeardownOrder.AskedMayPrecede | runtime/core/src/connector.js:118-122 | when anyone may be asked, any connector can begin to close while a linked dependant is still closing |
| TeardownOrder.ItemsAreNotGuarded | runtime/core/src/connector.js:50-53 | an item of an array is taken down under the connector that depends on the array, which stays up |
| TeardownOrder.ItemStaysDown | runtime/core/src/connector.js:84-85 | from that state `connect` of the root opens nothing and the item stays down |
| TeardownOrder.DependencyMayCloseFirst | runtime/core/src/connector.js:118-122 | a session of one root in which a shared dependency begins to close while a dependant is still closing |
| Teardown.StagesAdvance | runtime/core/src/connector.js:113-145 | the stages of disconnecting only advance |
| Teardown.SessionsEnd | runtime/core/src/connector.js:113-145 | however often connectors are asked to disconnect, only a bounded number of other moves follow |
| Conveyors.SettledForGood | libraries/conveyor/source/conveyor.js:65-82 | a settled promise never changes |
| Conveyors.ReturnTakesAll | libraries/conveyor/source/conveyor.js:45-47 | a return settles what was in flight and hands over all that was pending |
| Conveyors.BrokenIsForever | libraries/conveyor/source/conveyor.js:40-47 | after a rejection nothing is handed over or settled again |
| Conveyors.StuckOnlyWhenBroken | libraries/conveyor/source/conveyor.js:40-47 | a conveyor is busy with nothing in flight exactly after a processor that rejected or returned null |
| Conveyors.Conveyor.Process | libraries/conveyor/source/conveyor.js:24-30 | a submission joins the pending batch, which is handed over at once when the conveyor is idle |
| Conveyors.Conveyor.Begin | libraries/conveyor/source/conveyor.js:32-38 | the whole pending batch takes off with its promises |
| Conveyors.Conveyor.Return | libraries/conveyor/source/conveyor.js:40-48 | every promise of the flight is settled by its own index, by the common result, or rejected on a length mismatch; the next batch takes off |
| Merging.ComputeMerge | libraries/generic/source/merge.js:6-43 | the loop, over keys in any order, computes the merge in all three modes, and throws exactly where it is undefined |
| Merging.StrictIsJoined | libraries/generic/source/merge.js:6-36 | a strict merge that succeeds joins objects key by key and arrays end to end |
| Merging.AddIsUnder | libraries/generic/source/merge.js:46 | `add` succeeds exactly when objects and arrays meet their like, or empty ones meet null; it joins objects key by key and keeps anything else that is there |
| Merging.MergeWithNothing | libraries/generic/source/merge.js:6-9 | a missing target or source counts as an empty object |
| Merging.AddMayThrow | libraries/generic/source/merge.js:10-13 | `add` throws where `overwrite` the other way round succeeds |
| Merging.OverwriteMayNotAssociate | libraries/generic/source/merge.js:10-13 | three objects for which the two orders of overwriting give different results |
| Merging.CoveredIsOverwritten | libraries/generic/source/merge.js:21-36 | overwriting an object leaves exactly the source when the source has all keys of the target, at every depth |
| Merging.OverwriteIsIdempotent | libraries/generic/source/merge.js:45 | overwriting any object or array with itself changes nothing |
| Merging.OverwriteIsOver | libraries/generic/source/merge.js:24-36 | there, overwriting joins objects key by key and replaces anything else |
| Transformations.ToTransformation | extensions/storages/source/providers/Cloudinary.ts:177-230 | the loops over the shared index give each extension the next matching transformation, in order, or refuse; an empty list lets any path through |
| Transformations.TargetIsAssigned | extensions/storages/source/providers/Cloudinary.ts:177-230 | the first part is the base and every extension completes the options of the transformation assigned to it, in order; a path is refused exactly when there is no such assignment |
| Transformations.RefusesOnlyTheImpossible | extensions/storages/source/providers/Cloudinary.ts:186-227 | if no extension of a path fits an optional transformation and the next required one, a refusal means that there is no assignment at all |
| Transformations.SingleMatches | extensions/storages/source/providers/Cloudinary.ts:186-227 | if each extension matches at most one transformation, the assignment found is the only one and a refusal means that there is none |
| Transformations.OptionalTakesRequired | extensions/storages/source/providers/Cloudinary.ts:195-199 | otherwise a path that could be assigned may be refused |
| Paths.Split | extensions/storages/source/providers/Cloudinary.ts:181 | splitting at dots gives parts without dots that join back to the string |
| Paths.SplitJoin | extensions/storages/source/providers/Cloudinary.ts:181 | splitting what was joined from parts without dots gives the parts |
| Criteria.CompilesKnown | connectors/storages.mongodb/src/translate/criteria.js:9-54 | an error is thrown exactly when a node type or a comparison operator is not known |
| Criteria.FirstIsBlamed | connectors/storages.mongodb/src/translate/criteria.js:36-51 | the error is that of the first unknown comparison or node from left to right |
| Criteria.UnknownLogicSelectsNothing | connectors/storages.mongodb/src/translate/criteria.js:36-41 | an unknown logical operator is no error, but selects nothing |
| Criteria.TranslatesIff | connectors/storages.mongodb/src/translate.js:9-22 | a query translates exactly when its criteria compile, and passes on their error otherwise |
| Criteria.OperatorsCorrespond | connectors/storages.mongodb/src/translate/criteria.js:22-31 | every comparison operator becomes the database operator of the same relation |
| Criteria.UnderscoreIdReadsId | connectors/storages.mongodb/src/translate/rename.js:3-7 | criteria over `_id` select by the entity's id although entities have no such property |
| Criteria.SelectorKeepsMeaningIff | connectors/storages.mongodb/src/translate/criteria.js:22-54 | a comparison keeps its meaning for all entities and relations exactly when its selector is `id`, or its first part is neither `id` nor `_id` and it does not begin with a dollar |
| Criteria.Translate | connectors/storages.mongodb/src/translate.js:9-22 | builds the filter of a whole query, or passes the compiler's error on |
| Criteria.TranslateConjoins | connectors/storages.mongodb/src/translate.js:9-22 | unless they clash, criteria, id and version are all required and nothing else is |
| Criteria.ClashIsDropped | connectors/storages.mongodb/src/translate.js:15-19 | a topmost comparison on the id or version that the query gives is dropped |
| Criteria.QueryKeepsMeaning | connectors/storages.mongodb/src/translate.js:9-22 | a whole query that loses no comparison finds exactly the entities that satisfy criteria, id and version |
| Criteria.FromTo | connectors/storages.mongodb/src/record.js:3-16 | an entity survives storing and reading exactly when it has an id and no property named `_id` |
| Criteria.ToFrom | connectors/storages.mongodb/src/record.js:3-16 | a record survives reading and storing exactly when it has an `_id` and no field named `id` |
| Workflows.Execution.Report | extensions/exposition/source/directives/octets/workflows/Execution.ts:69-82 | pushes one report with status, output or error, and an error interrupts |
| Workflows.Execution.Exception | extensions/exposition/source/directives/octets/workflows/Execution.ts:84-89 | pushes one exception report and interrupts |
| Workflows.StepsAreTold | extensions/exposition/source/directives/octets/workflows/Execution.ts:41-89 | each return, chunk, end and exception of a step pushes one report with its status, and with its output or error exactly if it has one; an error or exception interrupts, and nothing else does |
| Workflows.ProceedsUnlessFailed | extensions/exposition/source/directives/octets/workflows/Execution.ts:30-39 | when a unit is through, the execution ends exactly if it is the last one or a step of it has failed; otherwise the next unit starts |
| Workflows.RunsKeep | extensions/exposition/source/directives/octets/workflows/Execution.ts:30-67 | the invariant on units, interruption and each step's reports holds in every interleaving |
| Workflows.UnitsReportInOrder | extensions/exposition/source/directives/octets/workflows/Execution.ts:30-39 | all reports of a unit precede those of later ones, and only its own steps report |
| Workflows.EndsOnce | extensions/exposition/source/directives/octets/workflows/Execution.ts:38 | the stream ends exactly once and nothing follows |
| Workflows.NeverStuck | extensions/exposition/source/directives/octets/workflows/Execution.ts:30-39 | until the end some step can go on or the execution proceeds |
| Scanners.Scanner.Transform | extensions/storages/source/Scanner.ts:31-36 | chunks reach the scanner until an error destroys the stream |
| Scanners.Scanner.Process | extensions/storages/source/Scanner.ts:38-56 | one chunk advances the scanner as specified, cutting what exceeds the header |
| Scanners.Scanner.Complete | extensions/storages/source/Scanner.ts:58-79 | a complete header decides type and error |
| Scanners.Scanner.Verify | extensions/storages/source/Scanner.ts:81-91 | a mismatch replaces any error set before |
| Scanners.Scanner.Match | extensions/storages/source/Scanner.ts:93-101 | a type that is not accepted is an error and destroys the stream |
| Scanners.ChunksDoNotMatter | extensions/storages/source/Scanner.ts:38-56 | any two ways of cutting the same bytes give the same type and error |
| Scanners.RefusedSizesDiffer | extensions/storages/source/Scanner.ts:107-111 | a refused stream has its whole length as size when sent at once, and the header's when cut behind it; they differ exactly when it is longer |
| Scanners.ZerosAreRefused | extensions/storages/source/Scanner.ts:107-111 | thirteen zeros claimed to be a PNG image are refused, with size 13 or 12 |
| Scanners.ShortStreamsPass | extensions/storages/source/Scanner.ts:51-52 | a stream shorter than the header keeps the default type and no error, whatever was claimed |
| Scanners.HeaderHoldsSignatures | extensions/storages/source/Scanner.ts:146-147 | every signature's slice lies in the header, and the header is no longer than needed |
| Scanners.SignatureFits | extensions/storages/source/Scanner.ts:61-68 | a signature fits exactly when its digits are at its place, where a question mark takes any; also at the very end of the header |
| Scanners.HexReads | extensions/storages/source/Scanner.ts:58-61 | the header is compared as two digits for each byte, the higher one first |
| Scanners.FindsFirst | extensions/storages/source/Scanner.ts:61-68 | detection takes the first signature that fits, or none when none fits |
| Scanners.RefusesMismatch | extensions/storages/source/Scanner.ts:58-101 | a mismatch is reported exactly when the claim differs from the first fitting signature's type, or is a known type without a fitting signature; otherwise the error is that of negotiation |

## Left out

- Unique indexes, their DuplicateException and the ECONNREFUSED retry of `store`: the database driver and index management are not part of this model.
- Schema validation, defaults from schemas and `_trailers`: values are taken to fit; defaults are a parameter.
- Real time, retry intervals and their dispersion: times are parameters of the steps, waiting is any interleaving.
- Algorithms with effects: an algorithm is a function of the state it reads and leaves `id` and `_version` alone.
- Transitions over sets of objects, `find`, `stream` and query options: they only read.
- Storages.Storage.Ensure: properties other than `id` and data fields (system fields among them), and equality conditions that a database upsert would copy from the query into the inserted record, are not modelled.
- Retries.Retry: the callback is a function of the attempt number, so calling `retry` several times within one attempt is not modelled.
- Differences.ComputeDifference: arrays inside trees are not modelled; JavaScript would compare them index by index as objects.
- RouteTree.NodeMatch: nodes and routes are values, so the trees built by merging share nothing; the source mutates one tree in place, and nodes of merged branches become part of it.
- Gateways.MergeNodes: closing the methods of a replaced node is not modelled.
- Gateways.Gateway.Merge: the parsing of announcements, endpoints and the exceptions they may raise are not modelled; the only failure is an unknown directive family.
- Resolution of forwards in the gateway and HTTP processing: a match is modelled up to its node and parameters; paths are given by their fragments.
- DirectiveSets.Create: family names that look like integers, which JavaScript objects list first, and the construction of each directive are not modelled.
- Confluence.GatewaysAgree: for the root path the answer is the trunk itself, of which methods, forward and parameters agree but the order of tied routes may differ.
- Versions.OrderIsImmaterialIff: more than two branches that share a route at a node with a root route or at a protected one are not decided, nor are shared routes below an annotated one except for their methods (Versions.ProtectedMethodsIff).
- Lifecycle.ConnectOpens: `connect` is a step system over a fixed graph and not a method of the class, because its steps interleave; a failing `open` and calls of `connect` that overlap `disconnect` are not modelled.
- Teardown.NothingStaysConnected: `disconnect` is a step system in the same way; interrupts and reconnecting within a session are not modelled, and repeated dependencies collapse into one.
- Conveyors.Conveyor.Process: promises are numbered by submission instead of being objects; an array result whose element is read through `??` gives that element.
- Merging.ComputeMerge: an array meeting an object at a common path, symbols as keys, aliasing of merged parts of the source and the path in error messages are not modelled.
- Merging.OverwriteAssociates: trees in which an object or array overwrites `null`, which throws unless it is empty, are not covered.
- Transformations.ToTransformation: a regular expression is the set of strings it matches; computing options from its groups is not modelled, the result pairs the declared options with the extension.
- Criteria.CompileKeepsMeaning: what the database's relations mean is a parameter; selectors that are names of inherited JavaScript properties and the coercion of operands are not modelled; comparisons have a selector on the left and a value on the right.
- Criteria.Translate: query options (omit, limit, sort, projection) are not modelled.
- Workflows.Execution.Report: endpoints, discovery and calls are not modelled; a step may return, stream or throw anything.
- Scanners.Scanner.Process: the size limit, the digest and the pass-through of data are not modelled; content negotiation is a parameter; no chunk arrives after an error has destroyed the stream.
- HTTP, encoders, message brokers, authentication, object storages, command line and deployment: input and output around the modelled core.
