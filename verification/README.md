# Test-automation backend: constants, run contexts, events, perimeters

This project models the parts of the backend where separate pieces of code must agree with each
other, and proves that they do, or exactly when they do.

* **Constants.** A suite is a list of sections (beforeAll, beforeEach, tests, afterEach, afterAll),
  each a list of commands that define, use and delete named constants in four scopes. A static
  checker accepts or refuses the suite before it is stored; at run time the same commands read,
  write and remove paths in a tree of JSON scopes. `ConstantGraph*` is the checker,
  `PathTokens`, `Context*` and `RunContexts` the store with its two path parsers, `CommandRuntime`
  the commands, `CommandPolicy` and `PolicySoundness` the check on the paths they name,
  `SectionSoundness` and `Suite*` the theorem that joins the two sides, with its exact conditions
  and the runs that break it. `StoredOrder` is the order in which stored commands are run, which
  is not quite the order they were planned in; `SuiteOrder` compares the check of a suite as it is
  sent with the check of the suite as it is stored; `ContextEscapes` is the way around the guard of
  the store. `ConstantGraphMeaning` and `SuiteAcceptance` say which sections and suites are accepted
  without using the checker's tables, `CommandValues` and `SectionReadings` which values commands
  store and find, `SuiteItems` which items a suite runs and what each starts from,
  `ContextCompletion` when a write completes and what it creates, `ContextSnapshots` what a snapshot
  holds.
* **Events.** `EventBus` is the publish/subscribe bus as a machine of interleaved atomic steps and
  as a class, and `EventBusDrops` says when frames are queued and lost; `ExecutionStream` is the
  drain loop of a subscriber; `SuiteExecutor` is the executor that feeds it, `ExecutorReports` says
  what its events report, and `StreamedExecution` joins them.
* **Dataset perimeters.** `DatasetParameters` coerces and resolves parameters; `Perimeter` and
  `PerimeterNormalize` turn untyped JSON into a typed perimeter; `PerimeterQuery` compiles it to an
  expression tree; `PerimeterMeaning`, `PerimeterTyping` and `LikePatterns` say what is preserved,
  `PerimeterAcceptance` what is accepted and `CoercionMeaning` what values stand for, all read off
  the raw JSON and the texts in it.
* **Mocked bodies.** `MockMatch` is the containment test on nested JSON, and `MockMeaning` says where
  it fails.

A method models code that updates variables or state; it is proved equal to a specification
function, and the lemmas are about that function. Raised exceptions are `Result`, `Option` or a
`completed` flag. `Value` is JSON, plus dates and, for the two built-in aliases of a run context, a
reference to the shared scope dict.

## What holds, and under which hypotheses

* *Soundness of a section*, its commands run in the order they were planned in, needs: names that
  are single path tokens and not numbers (`PlainTable`), orders that are not negative, a definition
  table built from the sections (`DeclarationsAgree`), and a start context whose scopes hold their
  constants, as a created one does (`HasConstants`). References are the ones `_definition_refs`
  lists.
* *Soundness of a suite* needs besides that every item's orders are explicit, positive and pairwise
  distinct (`WellOrdered`). The runner executes what the database returns by ascending stored order
  (`Fetched`), where a zero stays a zero and equal orders come in any arrangement; the planner gives
  a zero its position and breaks ties by ids. `FetchedAsPlanned` brings well-ordered items back to
  their plan; `StoredOrderExactly` says for which orders commands run as they were planned.
* *The exact conditions* assume nothing else: a section (`SectionFlowExactly`) or a whole suite
  (`SuiteSoundExactly`) reads only bound constants exactly when, for every constant a reached
  command refers to, the last command before it that touched that constant wrote it. The condition
  is read off the order of the items, their commands, and which commands raise or return early; a
  command the target policy refuses is one that raises.
* *What the checker can promise* is less: `SectionSound` and `SectionSoundExactly` ask that the
  commands that do not raise write the results they declare; `SuiteSound` asks besides that nothing
  which runs once per test deletes what a hook declared, and that no command of the hooks before
  the tests raises.
* *Streams* show the published frames without a gap, from the oldest of the history they joined at,
  with one publisher and no drop; with several publishers each frame still has exactly one fate. A
  frame is dropped only by a put into a queue that holds 1000 frames (`DroppedOnlyWhenFull`), so a
  subscriber whose queue never fills loses nothing.
* `Lawful` says that ISO texts of dates read back as the dates; it is the only thing assumed of the
  library functions a perimeter uses.

## Where the code does not do what it is for

Each of these is a lemma: a concrete input, and the exact condition where one is given.

* The hook-aware runner goes on with the test when beforeEach has failed and with afterAll when
  beforeAll has failed, so a suite the checker accepted reads an unbound constant
  (`FailedBeforeEachBreaks`). Deletions inside a test are not carried to the next one
  (`DeletingTestBreaks`). `saveTable` and `exportDataset` return early on empty rows without
  writing the declared result (`EmptyRowsBreak`). `SuiteSoundExactly` and `SectionFlowExactly` say
  exactly which runs are sound.
* The checker looks at the declared scope of an `initConstant`, the target policy at its `target`
  as well, so an accepted command can be refused when it runs (`StrayTargetIsRefused`); accepted
  commands pass exactly when they carry no target or one their item may write
  (`PlannedCommandPassesExactly`).
* A negative order slips past the duplicate check for carried definitions (`DuplicateCheckExactly`,
  `NegativeOrderSlips`).
* Commands are planned and run in different orders. An order of zero is planned at its position and
  run first, so an accepted test deletes a constant before it uses it (`ZeroOrderBreaks`); with
  equal orders the database may return the arrangement that was not planned (`TiedOrdersBreak`).
  Commands run as they were planned, whatever they are, exactly when their orders are pairwise
  distinct and no positive order is at or below the position of a zero (`StoredOrderExactly`).
* With equal orders the verdict itself depends on the ids (`TiesDependOnIds`), and the ids differ
  between the check of a suite that is sent and the check of the suite that is stored. Explicit
  orders, none of them zero, are pairwise distinct exactly when every rearrangement under any ids is
  planned alike (`OrderIndependenceExactly`); the two checks of a suite with such orders agree
  (`SuitesCheckAlike`).
* `write_context_path` inserts `constants` below `runEnvelope`, `global`, `local` and `vars`, but
  the resolver does not, so `$.local.x`, `$.vars`, `$.vars[0]` and `$.vars.constants` are not read
  back (`ReadAfterWriteExactly`).
* A write creates the objects it finds missing on its way, and lists below names, but not a list in a
  list: a missing list element is made an object, at which the next index raises
  (`NestedListIsNotCreated`). `WriteCompletesExactly` says when a write completes, `AssignGrows` what
  it leaves at each place on its way.
* The guard that keeps tests from changing the global scope is bypassed by `$.local.global.…`, by
  writes and by removals alike (`WritesAreGuardedExactly`, `RemovalsAreGuardedExactly`).
* A write or a removal below `response` puts an empty object in the place of anything in
  `result.commands` that is not one (`ReplacedListIsLost`); writes, and removals, leave the other
  locations alone exactly when there is nothing there to destroy (`ResponseFrameExactly`,
  `RemovalFrameExactly`).
* A snapshot of a run context is restored faithfully exactly when the context still has the shape
  it was created with (`SnapshotRoundTrip`).
* The stream recognises its last frame by a substring of the serialized frame, so a payload that
  quotes the mark ends it early (`EndTestExactly`, `LastFrameEnds`).
* A parameter override whose name is padded with blanks is accepted and ignored
  (`PaddedOverrideIgnored`); accepted overrides all take effect exactly when none is padded
  (`OverridesTakeEffectExactly`).
* An accepted perimeter with resolved parameters need not compile: a parameter without a default
  resolves to null, and the SQL toolkit raises on an ordering against null (`UnsetBoundIsRefused`);
  `CompilesExactly` gives the condition.
* `contains`, `starts_with` and `ends_with` compile to LIKE without escaping and without naming an
  escape. Besides `%` and `_`, PostgreSQL then takes a backslash as its escape and SQL Server opens
  a character class with a bracket; the operators mean what they say exactly for operands without
  a character the database's dialect takes for special (`TextOperatorExactly`).

Seen in the code but outside the model: the hook-aware runner publishes `suite_finished` and never
`execution_finished`, so a stream on it does not end by itself.

## Model

| member | source | states |
|---|---|---|
| ConstantGraph.PlanDefinitionsForCommands | app/elaborations/services/constants/command_constant_definition_registry.py:412-453 | the planning loop, with its in-place updates of the visible map, returns the specified plan: first refusal, or the declarations and the map |
| ConstantGraph.ValidateRefs | app/elaborations/services/constants/command_constant_definition_registry.py:312-338 | the check of a command's references: visible, declared earlier, not deleted, of a compatible type, deletable |
| ConstantGraphLaws.FreeNameMatches | app/elaborations/services/constants/command_constant_definition_registry.py:374-409 | a declaration is let through, for its writable scope and no live definition of that name and scope in the map, exactly when the latest events before the command allow it |
| ConstantGraphLaws.SortedSorts | app/elaborations/services/constants/command_constant_definition_registry.py:418-424 | the schedule is a permutation of the commands in ascending order |
| ConstantGraphLaws.StepKeepsConsistent | app/elaborations/services/constants/command_constant_definition_registry.py:374-453 | every accepted command keeps live definitions injective on scope and name |
| ConstantGraphLaws.PlanHandsOnConsistent | app/elaborations/services/constants/command_constant_definition_registry.py:256-262 | the map handed to the next section is again injective |
| ConstantGraphLaws.DuplicateCheckExactly | app/elaborations/services/constants/command_constant_definition_registry.py:265-293 | the duplicate check sees every carried definition of the name exactly for orders that are not negative |
| ConstantGraphLaws.NegativeOrderSlips | app/elaborations/services/constants/command_constant_definition_registry.py:261-293 | with a negative order an accepted section leaves two live definitions of one name and scope |
| ConstantGraphLaws.ChecksMatchRule | app/elaborations/services/constants/command_constant_definition_registry.py:312-409 | the checks on one command accept exactly what the rule about latest earlier events allows |
| ConstantGraphLaws.PlanRefinesRule | app/elaborations/services/constants/command_constant_definition_registry.py:412-453 | the incremental planner accepts a section exactly when every command obeys the declarative rule, and hands on the state the events describe |
| ConstantGraphMeaning.AcceptedExactly | app/elaborations/services/constants/command_constant_definition_registry.py:296-453 | a section is accepted exactly when, for each kind of command, the constant in its own field (every one, for `runSuite`) stands for a declaration of smaller order, in a scope its section may read and of a type the kind takes, and what it declares is writable and free, scopes and types spelled out |
| ConstantGraphMeaning.StandsExactly | app/elaborations/services/constants/command_constant_definition_registry.py:412-453 | what an id stands for, the last declaration not deleted since, is what its latest event declares |
| ConstantGraphMeaning.HandedOnExactly | app/elaborations/services/constants/command_constant_definition_registry.py:256-262 | the live definitions handed to the next section are those the ids stand for at the end |
| ConstantGraphMeaning.PersistedExactly | app/elaborations/services/constants/command_constant_definition_registry.py:341-371 | the persisted definitions are exactly those the commands declare, field by field |
| ConstantGraphMeaning.ScheduleExactly | app/elaborations/services/constants/command_constant_definition_registry.py:243-249 | commands are planned at their own order, or their position where it is absent or zero, by ascending order and then id |
| SuiteAcceptance.SuiteAcceptedExactly | app/elaborations/services/constants/command_constant_definition_registry.py:470-521 | a suite is accepted exactly when its items' fields follow the rule, beforeAll from nothing, beforeEach and afterAll from what beforeAll hands on, tests and afterEach from what beforeEach hands on |
| ConstantGraphOrder.ArrangementUnique | app/elaborations/services/constants/command_constant_definition_registry.py:418-424 | commands with distinct orders have one ascending arrangement, whatever their ids |
| ConstantGraphOrder.OrderIndependence | app/elaborations/services/constants/command_constant_definition_registry.py:412-467 | with explicit, distinct orders, every permutation under any ids, from maps equal up to the copied command ids, gives the same verdict, the same error, the same list and the same map, up to those ids |
| ConstantGraphOrder.OrderIndependenceExactly | app/elaborations/services/constants/command_constant_definition_registry.py:418-424 | explicit orders, none of them zero, are pairwise distinct exactly when every rearrangement of any commands with these orders, under any ids, is planned alike |
| ConstantGraphOrder.TiesDependOnIds | app/elaborations/services/constants/command_constant_definition_registry.py:418-424 | with equal orders the same two commands are accepted or refused according to their ids |
| SuiteOrder.SuitesCheckAlike | app/elaborations/services/constants/command_constant_definition_registry.py:470-521 | a suite with explicit, distinct orders is accepted, or refused for the same reason, however its commands are arranged and identified: checking it as sent and as stored agree |
| SuiteOrder.MapsAlike | app/elaborations/services/constants/command_constant_definition_registry.py:597-640 | the maps its hooks hand on to later sections then differ in the copied command ids only |
| StoredOrder.FetchedAsPlanned | app/elaborations/services/alembic/suite_item_command_service.py:12-23 | commands with explicit, positive, distinct orders are read back, ids apart, in the order they were planned in |
| StoredOrder.StoredOrderExactly | app/elaborations/services/alembic/suite_item_command_service.py:12-23 | given orders make any commands run as they were planned, whatever arrangement the database returns, exactly when they are pairwise distinct and no positive one is at or below the position of a zero |
| PyText.StripCuts | app/elaborations/services/suite_runs/run_context.py:188-203 | stripping a path or a segment takes away the blanks at its two ends, all of them, and nothing else |
| PathTokens.SegmentTokens | app/elaborations/services/suite_runs/run_context.py:201-225 | the writer's character loop over a segment computes the specified tokens |
| PathTokens.PathTokensOf | app/elaborations/services/suite_runs/run_context.py:228-234 | the writer's tokens of a whole path |
| PathTokens.SplitPath | app/elaborations/services/suite_runs/run_context_resolver.py:9-24 | the reader's split at dots outside brackets |
| PathTokens.ReferenceTokens | app/elaborations/services/suite_runs/run_context_resolver.py:27-51 | the reader's tokens of a segment, indices as numbers |
| PathTokens.WriterInvertsPrinter | app/elaborations/services/suite_runs/run_context.py:188-234 | on every canonical path the writer's parser inverts the printer |
| PathTokens.ReaderInvertsPrinter | app/elaborations/services/suite_runs/run_context_resolver.py:9-51 | on every canonical path the reader's parser inverts the printer |
| PathTokens.ParsersAgree | app/elaborations/services/suite_runs/run_context.py:201-234 | the two independent parsers read every canonical path alike |
| ContextLaws.AssignNestedReads | app/elaborations/services/suite_runs/run_context.py:281-316 | a nested assignment that completes is read back by the resolver's walk |
| ContextLaws.AssignNestedFrame | app/elaborations/services/suite_runs/run_context.py:281-316 | a nested assignment, completed or not, leaves every existing location apart from its path |
| ContextLaws.RemoveNestedGone | app/elaborations/services/suite_runs/run_context.py:319-340 | removing a property makes its location disappear |
| ContextLaws.RemoveUndoesAssign | app/elaborations/services/suite_runs/run_context.py:281-340 | removing a key just added to an existing object restores the tree |
| ContextCompletion.AssignCompletesExactly | app/elaborations/services/suite_runs/run_context.py:281-316 | a nested assignment completes exactly when what stands on its way, missing or null apart, is an object under a name and a list under an index, and a missing list element is followed by a name |
| ContextCompletion.AssignGrows | app/elaborations/services/suite_runs/run_context.py:276-316 | at each place on its way it leaves the container the next step needs, with that one name or index more, empty objects as padding, and all else it held |
| ContextCompletion.RemoveTakesOut | app/elaborations/services/suite_runs/run_context.py:319-340 | a removal takes one name or one list element out of its parent, and does nothing where there is none |
| ContextCompletion.RemoveLeaves | app/elaborations/services/suite_runs/run_context.py:319-340 | it leaves every location apart from that parent |
| ContextTheorems.ReadAfterWrite | app/elaborations/services/suite_runs/run_context.py:343-370 | whenever `write_context_path` completes on a path both parsers understand alike, resolving the same text gives the written value, aliases followed |
| ContextReadBack.ReadAfterWriteExactly | app/elaborations/services/suite_runs/run_context.py:343-370 | a canonical path is read back after every completed write in every context exactly when its first name is one the writer leaves in place |
| ContextCompletion.WriteCompletesExactly | app/elaborations/services/suite_runs/run_context.py:343-370 | in every well-formed context a write of a canonical path completes exactly when it has a root its item may write and either names no entry and assigns an object, or takes steps whose way is clear, aliases read through |
| ContextCompletion.WrittenWhere | app/elaborations/services/suite_runs/run_context.py:357-370 | the value is then found below the scope, under `constants` unless the path starts with one of the five names spelled out |
| ContextCompletion.NestedObjectIsCreated | test/alembic/services/test_run_context_paths.py:18-23 | on a created context `$.local.actual.rows` can be written at once |
| ContextCompletion.NestedListIsNotCreated | app/elaborations/services/suite_runs/run_context.py:276-303 | on a created context `$.local.m[0][0]` raises, whatever is written |
| ContextCompletion.SpelledAlike | app/elaborations/services/suite_runs/run_context.py:188-198 | `$.`, `$` and nothing before a path are the same to the writer |
| ContextFrames.WriteFrame | app/elaborations/services/suite_runs/run_context.py:343-370 | a write, even one that raises halfway, leaves every stored location beside its path unchanged |
| ContextFrames.ReplacedListIsLost | app/elaborations/services/suite_runs/run_context.py:251-266 | when `result.commands` is a list, a write below `response` destroys its elements |
| ContextFrames.ResponseFrameExactly | app/elaborations/services/suite_runs/run_context.py:251-266 | the frame holds for every write below `response` exactly when `result.commands` is absent, an object, or holds nothing to destroy |
| ContextFrames.RemoveFrame | app/elaborations/services/suite_runs/run_context.py:373-392 | the removal of a property, below `response` in a context whose `result.commands` is absent, an object, or holds nothing to destroy, leaves every location beside its path, present or absent |
| ContextFrames.RemovalFrameExactly | app/elaborations/services/suite_runs/run_context.py:373-392 | the frame holds for every removal of a property below `response` exactly when `result.commands` is absent, an object, or holds nothing to destroy |
| ContextFrames.RemovedIsMissing | app/elaborations/services/suite_runs/run_context.py:373-392 | after removing a property its path resolves to nothing |
| ContextFrames.RemoveUndoesWrite | app/elaborations/services/suite_runs/run_context.py:343-392 | removing a key a write has just added to an existing object restores the whole context |
| ContextGuards.WriteKeepsForm | app/elaborations/services/suite_runs/run_context.py:343-370 | every write of a value keeps the context well formed: aliases only where they were created |
| ContextGuards.TestGuardExactly | app/elaborations/services/suite_runs/run_context.py:343-370 | for a path whose write completes, the guard protects global scope and run envelope from a test exactly when the path does not go through `local.global` |
| ContextEscapes.WritesAreGuardedExactly | app/elaborations/services/suite_runs/run_context.py:343-370 | over all contexts and values, a test's writes by a path, completed or raising halfway, leave global scope and run envelope alone exactly when the path does not go through `local.global` to a name |
| ContextEscapes.RemovalsAreGuardedExactly | app/elaborations/services/suite_runs/run_context.py:373-392 | the same for removals |
| ContextGuards.ConstantWrite | app/elaborations/services/suite_runs/run_context.py:343-370 | writing `$.scope.constants.name` adds that one entry, unless the guard stops it |
| ContextGuards.ConstantLookup | app/elaborations/services/suite_runs/run_context_resolver.py:54-81 | resolving `$.scope.constants.name` finds the entry or reports a miss |
| RunContexts.RunContext.constructor | app/elaborations/services/suite_runs/run_context.py:46-95 | a new context holds the run envelope and the two aliases |
| RunContexts.RunContext.WriteContextPath | app/elaborations/services/suite_runs/run_context.py:343-370 | the object's new state is the specified one, raise or not |
| RunContexts.RunContext.RemoveContextPath | app/elaborations/services/suite_runs/run_context.py:373-392 | the object's new state is the specified one |
| RunContexts.RunContext.AppendAssertArtifact | app/elaborations/services/suite_runs/run_context.py:173-185 | an assert's artifact is appended to the result scope |
| RunContexts.RunContext.ResetLocalContext | app/elaborations/services/suite_runs/run_context.py:138-143 | the local constants are emptied and the last item cleared, everything else is kept |
| RunContexts.RunContext.Resolve | app/elaborations/services/suite_runs/run_context_resolver.py:54-81 | resolution against the context's scopes |
| RunContexts.SnapshotRoundTrip | app/elaborations/services/suite_runs/run_context.py:433-466 | deserializing a serialized context gives back its scopes, both aliases and the last item exactly when it has the shape it was created with |
| RunContexts.ReachedContextsSurvive | app/elaborations/services/suite_runs/run_context.py:433-466 | every context reached by constant writes and removals, artifacts and fresh locals survives serialization |
| RunContexts.CreatedIsHealthy | app/elaborations/services/suite_runs/run_context.py:76-95 | a created context is one from which such runs may start |
| ContextSnapshots.StateRoundTrip | app/elaborations/services/suite_runs/run_context.py:433-466 | deserializing a serialized context gives back the whole state, run id, invocation id and last item included, exactly when it has the shape and the ids it was created with |
| ContextSnapshots.SnapshotReadsAlike | app/elaborations/services/suite_runs/run_context.py:433-442 | every place below a scope reads in the snapshot as in the context, aliases followed |
| ContextSnapshots.ArtifactFrame | app/elaborations/services/suite_runs/run_context.py:173-185 | an artifact changes nothing but the list of asserts |
| ContextSnapshots.CreatedHolds | app/elaborations/services/suite_runs/run_context.py:46-95 | a created context holds its id, event and variables in the run envelope, and is empty otherwise |
| CommandRuntime.ExecuteOperation | app/elaborations/services/operations/command_executor_composite.py:285-300 | one command's effect on the context object, and whether it raises; an assert that raises leaves its artifact exactly if it got as far as evaluating |
| CommandRuntime.ExecuteChecked | app/elaborations/services/operations/command_executor_composite.py:204-205 | one turn of the loop: a command the target policy refuses leaves the context alone and raises, any other has its effect |
| CommandRuntime.ExecuteOperations | app/elaborations/services/operations/command_executor_composite.py:149-282 | commands run in order, each after the target policy, and stop at the first that raises; each command started leaves one `command_finished` event and status row saying whether it completed, the last of them alone a failure |
| CommandRuntime.BoundIsFound | app/elaborations/services/constants/command_constant_definition_registry.py:806-810 | a constant is bound exactly when its definition's path resolves |
| CommandRuntime.ExecEffect | app/elaborations/services/operations/init_constant_command_executor.py:30-60 | a command binds at most what it declares, unbinds at most what it deletes, and leaves all other constants as they were |
| CommandRuntime.ExecUnbinds | app/elaborations/services/operations/delete_constant_command_executor.py:17-43 | a completed deletion leaves its constant unbound |
| CommandValues.InitStores | app/elaborations/services/operations/init_constant_command_executor.py:30-60 | an initConstant completes unless it is made to raise or a test may not write its scope; then resolving its constant finds its value, and every other constant reads as before |
| CommandValues.DeleteDrops | app/elaborations/services/operations/delete_constant_command_executor.py:17-43 | a deletion of a known, writable constant makes it a miss, and every other constant reads as before |
| CommandValues.ResultStores | app/elaborations/services/operations/command_data_resolver.py:57-61 | a command with a result stores its value under the result's definition, and nothing without one or on empty rows |
| CommandValues.OthersStoreNothing | app/elaborations/services/suite_runs/run_context.py:173-185 | asserts and actions change no constant; an assert that evaluates adds its artifact after those gathered |
| CommandValues.ExecStores | app/elaborations/services/operations/command_executor_composite.py:285-300 | after any command the constant it writes reads as its value, the one it deletes as a miss, and any other as before; one that raises changes none |
| CommandValues.LastTouchDecides | app/elaborations/services/operations/command_executor_composite.py:149-282 | at every reached command and at the end a constant holds the value of the last command that wrote it, and is missing if the last to touch it deleted it |
| CommandPolicy.InitPassesExactly | app/elaborations/services/operations/command_policy_validator.py:14-60 | of the paths collected for an `initConstant`, all pass exactly when its scope may be written and its target, unless blank, has a root that may be |
| CommandPolicy.ValidateTargetRoots | app/elaborations/services/operations/command_policy_validator.py:50-60 | accepts exactly when every path has a root that this kind of item may write |
| CommandPolicy.PolicyAnticipatesGuard | app/elaborations/services/operations/command_policy_validator.py:50-60 | a path the policy refuses can never be written by such an item; one it passes is written as if there were no guard |
| PolicySoundness.PlannedCommandPassesExactly | app/elaborations/services/operations/command_policy_validator.py:63-70 | a command of an accepted section passes the target policy exactly when it carries no target of its own or one this kind of item may write |
| PolicySoundness.StrayTargetIsRefused | app/elaborations/services/operations/command_policy_validator.py:16-18 | an accepted test command, local by its declared scope, whose target below the global scope is refused when it runs |
| SectionSoundness.SectionSound | app/elaborations/services/constants/command_constant_definition_registry.py:412-453 | from a store binding the inherited definitions its reached commands refer to, an accepted section reads only bound constants, whichever commands raise |
| SectionSoundness.SectionSoundExactly | app/elaborations/services/constants/command_constant_definition_registry.py:412-453 | whichever commands raise, it reads only bound constants exactly when the start store binds every inherited definition a reached command refers to |
| SectionSoundness.SectionFlowExactly | app/elaborations/services/constants/command_constant_definition_registry.py:412-453 | whichever commands raise or return early, it reads only bound constants exactly when the last command touching each constant before a reached reference wrote it |
| SectionReadings.BoundIsFinding | app/elaborations/services/constants/command_constant_definition_registry.py:296-309 | a command reads only bound constants exactly when the constants in its own fields, kind by kind, have definitions whose paths resolve |
| SectionReadings.SectionFinds | app/elaborations/services/constants/command_constant_definition_registry.py:412-453 | each reached command of an accepted section finds the constants in its fields, from a store binding what they inherit |
| SectionReadings.DeclaredValueIsFound | app/elaborations/services/constants/command_constant_definition_registry.py:806-810 | under a constant declared in its section it finds the value of the command that declared it |
| SectionReadings.InheritedValueIsFound | app/elaborations/services/constants/command_constant_definition_registry.py:806-810 | under an inherited constant that still stands, the value the section started with |
| SectionSoundness.GuardNeverFires | app/elaborations/services/suite_runs/run_context.py:343-392 | an accepted command never trips the guards of the run context |
| SectionSoundness.TestsLeaveSharedScopes | app/elaborations/services/constants/command_constant_definition_registry.py:145-176 | an accepted test section leaves global scope and run envelope as they were |
| SectionSoundness.CompletedBindsAll | app/elaborations/services/constants/command_constant_definition_registry.py:412-453 | a section that completes binds every definition it hands on |
| SectionSoundness.UndeletedStaysBound | app/elaborations/services/constants/command_constant_definition_registry.py:412-453 | an inherited definition never deleted stays bound even if the section stops early |
| SuiteRuns.ValidateSuiteConstantGraph | app/elaborations/services/constants/command_constant_definition_registry.py:470-521 | the suite check: which section is planned from which map, and the first refusal |
| SuiteCourses.RunFollowsCourse | app/elaborations/services/test_suites/test_suite_executor_thread.py:205-415 | for items of explicit, positive, distinct orders, run in the order the database returns: an accepted suite's run executes exactly the items and commands told from the suite and the outcomes of its commands, without looking at the store |
| SuiteCourses.SuiteSound | app/elaborations/services/test_suites/test_suite_executor_thread.py:205-415 | for such items and any number of tests, if nothing that runs once per test deletes what a hook declared and no command of the preparing hooks raises, no reached command reads an unbound constant, whatever else raises |
| SectionReadings.SuiteFinds | app/elaborations/services/test_suites/test_suite_executor_thread.py:205-415 | under the same conditions each reached command of each item finds the constants in its fields |
| SuiteItems.SuiteRunsItems | app/elaborations/services/test_suites/test_suite_executor_thread.py:205-415 | any suite runs beforeAll, each test between its hooks, and afterAll: no test if beforeAll raised, none after a group that raised and is to abort, and nothing else is skipped |
| SuiteItems.EachRunsItsItem | app/elaborations/services/test_suites/test_suite_executor_thread.py:102-202 | each item runs its stored commands as a test or a hook, in the context the item before it left, with locals that are empty at the start of a test's group and shared within it |
| SuiteExactness.SuiteSoundExactly | app/elaborations/services/test_suites/test_suite_executor_thread.py:205-415 | any run of an accepted suite of such items, with raises and early returns, is sound exactly when, for every constant a reached command refers to, the last command before it touching that constant wrote it |
| SuiteCounterexamples.FailedBeforeEachBreaks | app/elaborations/services/test_suites/test_suite_executor_thread.py:114-202 | an accepted suite whose test runs after a failed beforeEach and reads an unbound constant |
| SuiteCounterexamples.DeletingTestBreaks | app/elaborations/services/constants/command_constant_definition_registry.py:470-521 | an accepted suite in which one test deletes what the next one uses, which breaks every run whose beforeAll and deletion do not raise |
| SuiteCounterexamples.ZeroOrderBreaks | app/elaborations/services/alembic/suite_item_command_service.py:18-22 | an accepted test with an order of zero, every run of which uses a constant after deleting it, unless the deletion raises |
| SuiteCounterexamples.TiedOrdersBreak | app/elaborations/services/alembic/suite_item_command_service.py:18-22 | an accepted test with two equal orders, which breaks when the database returns them in the order they were stored in |
| SuiteCounterexamples.EmptyRowsBreak | app/elaborations/services/operations/save_table_command_executor.py:19-57 | an accepted section that uses the result a command did not write because there were no rows |
| EventBus.EventChannel.constructor | app/elaborations/services/suite_runs/execution_event_bus.py:25-27 | the bus starts empty |
| EventBus.EventChannel.AppendAndSnapshot | app/elaborations/services/suite_runs/execution_event_bus.py:38-50 | the locked section of a publish is one step: append to the bounded history, copy the subscribers |
| EventBus.EventChannel.PutAll | app/elaborations/services/suite_runs/execution_event_bus.py:51-60 | the puts after it are the publisher's remaining steps, full queues dropping the frame |
| EventBus.EventChannel.SubscribeToExecution | app/elaborations/services/suite_runs/execution_event_bus.py:89-94 | register and snapshot are one step |
| EventBus.EventChannel.UnsubscribeFromExecution | app/elaborations/services/suite_runs/execution_event_bus.py:97-103 | unregistering is one step and leaves the puts in flight |
| EventBusLaws.RunKeeps | app/elaborations/services/suite_runs/execution_event_bus.py:38-103 | every interleaving keeps the bus invariant |
| EventBusLaws.ExactlyOnce | app/elaborations/services/suite_runs/execution_event_bus.py:38-94 | in every reachable state each frame has exactly one fate for each subscriber: evicted before the snapshot, in it, waiting, consumed, dropped or owed |
| EventBusLaws.SoloKeeps | app/elaborations/services/suite_runs/execution_event_bus.py:38-60 | with one publisher, what a subscriber without drops has been handed is in order and without gaps, in every interleaving |
| EventBusDrops.PutExactly | app/elaborations/services/suite_runs/execution_event_bus.py:51-60 | a put to a subscriber with fewer than 1000 waiting frames leaves the frame last in its queue and drops nothing; to a full one it drops the frame |
| EventBusDrops.PublishExactly | app/elaborations/services/suite_runs/execution_event_bus.py:38-50 | a publication is numbered by its place and owed to the subscribers registered at that moment |
| EventBusDrops.PublishedExactly | app/elaborations/services/suite_runs/execution_event_bus.py:38-50 | in every run the published frames are those given to the publications made, in order |
| EventBusDrops.DroppedOnlyWhenFull | app/elaborations/services/suite_runs/execution_event_bus.py:51-60 | in every run a frame is dropped for a subscriber only at a put of it into a queue of 1000 frames |
| EventBusDrops.NeverFullLosesNothing | app/elaborations/services/suite_runs/execution_event_bus.py:51-60 | a subscriber whose queue never fills loses nothing |
| EventBusDrops.HistoryExactly | app/elaborations/services/suite_runs/execution_event_bus.py:25-50 | in every run the history is the last 500 frames, and a snapshot the history at the moment of joining |
| ExecutionStream.EndTestExactly | app/elaborations/services/suite_runs/execution_event_bus.py:33-35 | the substring test tells the last frame from the others exactly when no payload quotes the mark |
| ExecutionStream.StreamExecutionEvents | app/elaborations/services/suite_runs/execution_event_bus.py:106-132 | the drain loop yields the history, then each get as a frame or a heartbeat, and stops after the first frame that ends the stream |
| ExecutionStream.StreamOverRuns | app/elaborations/services/suite_runs/execution_event_bus.py:106-132 | with one publisher and no drop, a stream has delivered the published frames from the oldest of its history on, without gaps, and has ended exactly when it has reached the last of them and that one ends it |
| ExecutionStream.WaitingIsReached | app/elaborations/services/suite_runs/execution_event_bus.py:117-122 | a frame in a queue is consumed after as many gets as there are frames up to it, whatever other threads do |
| ExecutionStream.StreamEnds | app/elaborations/services/suite_runs/execution_event_bus.py:117-122 | once the last frame is in its queue, that many gets end the stream |
| EventBusDrops.UnfilledStreamDelivers | app/elaborations/services/suite_runs/execution_event_bus.py:106-132 | with one publisher, a stream whose queue never fills has delivered the published frames without gaps and ends with the last |
| EventBusDrops.UnfilledIsServed | app/elaborations/services/suite_runs/execution_event_bus.py:51-60 | between two publications such a subscriber holds or has consumed every frame since it joined, in order |
| EventBusDrops.UnfilledStreamEnds | app/elaborations/services/suite_runs/execution_event_bus.py:106-132 | once the frame that ends the execution has been put, as many gets as frames are waiting end the stream, whatever other threads do |
| SuiteExecutor.SelectionExactly | app/elaborations/services/suite_runs/suite_executor_thread.py:71-93 | selection fails exactly for an unknown target, and otherwise is the stretch of the suite that ends with it |
| SuiteExecutor.MilestonesOfTest | app/elaborations/services/suite_runs/suite_executor_thread.py:192-287 | one turn of the loop starts the test once and finishes it once, with its verdict, whatever its commands publish in between |
| SuiteExecutor.StopIsUnique | app/elaborations/services/suite_runs/suite_executor_thread.py:192-287 | there is one number of tests at which a run may stop |
| SuiteExecutor.RunTests | app/elaborations/services/suite_runs/suite_executor_thread.py:192-287 | the loop stops at the end of the selection or after an aborting failure and nowhere else, with exact events, rows and totals |
| SuiteExecutor.Execute | app/elaborations/services/suite_runs/suite_executor_thread.py:146-336 | the whole trace, the test rows and the suite row, a failed selection included |
| SuiteExecutor.RunsAreAccounted | app/elaborations/services/suite_runs/suite_executor_thread.py:146-336 | started = completed + failed, each start has one finish before the next start, no row stays running, success exactly if nothing failed, `execution_finished` once and last |
| ExecutorReports.ExecutionReports | app/elaborations/services/suite_runs/suite_executor_thread.py:146-336 | the events report one verdict for each test started, with its id and outcome, everything its commands published, and at each progress event the tests completed so far; the last has the results, the failures and the first message that is not empty, and the rows say the same |
| ExecutorReports.FirstMessageExactly | app/elaborations/services/suite_runs/suite_executor_thread.py:192-287 | the message reported is empty exactly when all are, and otherwise the first that is not |
| StreamedExecution.LastFrameEnds | app/elaborations/services/suite_runs/suite_executor_thread.py:313-336 | the last of an execution's frames ends a stream, and it is the only one to do so exactly when no payload before it quotes the mark |
| StreamedExecution.StreamShowsExecution | app/elaborations/services/suite_runs/execution_event_bus.py:106-132 | while the executor publishes, and no payload before the last quotes the mark, a stream has shown a gap-free part of the trace from the oldest frame of its history on, and has ended exactly when it has shown all the rest |
| EventBusDrops.UnfilledStreamShowsExecution | app/elaborations/services/suite_runs/execution_event_bus.py:106-132 | the same for a subscriber whose queue never fills |
| DatasetParameters.CoercedInhabits | app/data_sources/services/dataset_parameter_resolver.py:98-235 | a coerced value is of its type, and a value of the type is left alone |
| CoercionMeaning.CoercesExactly | app/data_sources/services/dataset_parameter_resolver.py:98-235 | a value is coerced to another exactly when it stands for it: the six words of booleans, decimal numerals with a sign, whole floats, ISO texts of moments and days |
| CoercionMeaning.IntegerTextExactly | app/data_sources/services/dataset_parameter_resolver.py:159-170 | the texts of an integer are its decimal numerals, with zeros before and at most one minus sign |
| DatasetParameters.StoredDefaultReadsBack | app/data_sources/services/dataset_perimeter_compiler.py:43-48 | a default serialized to JSON is coerced back to the value it came from |
| DatasetParameters.Resolve | app/data_sources/services/dataset_parameter_resolver.py:36-86 | the resolved map has exactly the declared names, each with its override or default coerced; otherwise the first fault |
| DatasetParameters.ResolvesExactly | app/data_sources/services/dataset_parameter_resolver.py:36-86 | resolution succeeds exactly when every override names a parameter, blanks apart, and every value can be coerced |
| DatasetParameters.PaddedOverrideIgnored | app/data_sources/services/dataset_parameter_resolver.py:62-85 | beside any accepted overrides a padded one is accepted and changes neither the fault nor any parameter's value |
| DatasetParameters.OverridesTakeEffectExactly | app/data_sources/services/dataset_parameter_resolver.py:62-85 | accepted overrides all take effect exactly when every key is its own strip |
| DatasetParameters.OnlyExactNamesCount | app/data_sources/services/dataset_parameter_resolver.py:66-86 | resolving with accepted overrides gives the fault and the environment of those under exact names alone |
| DatasetParameters.ResolvedAreTyped | app/data_sources/services/dataset_parameter_resolver.py:66-86 | every resolved value is null or of its declared type |
| PerimeterAcceptance.ClockDefaults | app/data_sources/services/dataset_parameter_resolver.py:89-156 | a parameter bound to `$now` or `$today` resolves to what that moment or day stands for in its type |
| PerimeterAcceptance.PlainDefaults | app/data_sources/services/dataset_parameter_resolver.py:66-86 | an override of exactly its name goes before a declared default, and without either a parameter is null |
| PerimeterNormalize.NormalizeParameters | app/data_sources/services/dataset_perimeter_compiler.py:59-76 | the loop over parameters, refusing duplicates |
| PerimeterNormalize.NormalizeColumns | app/data_sources/services/dataset_perimeter_compiler.py:78-90 | the loop over selected columns |
| PerimeterNormalize.NormalizeSort | app/data_sources/services/dataset_perimeter_compiler.py:138-158 | the loop over sort keys |
| PerimeterNormalize.Normalize | app/data_sources/services/dataset_perimeter_compiler.py:50-160 | the typed perimeter, or the first fault in the source's order |
| PerimeterNormalize.ParsedConditionIsWell | app/data_sources/services/dataset_perimeter_compiler.py:260-295 | an accepted condition is well typed: references declared and compatible, lists for in, texts for text operators |
| PerimeterNormalize.NormalizeIsIdempotent | app/data_sources/services/dataset_perimeter_compiler.py:50-160 | what normalizing returns is accepted again and unchanged, coerced and serialized defaults and the legacy form included |
| PerimeterAcceptance.PerimeterAcceptedExactly | app/data_sources/services/dataset_perimeter_compiler.py:50-160 | a perimeter is accepted exactly when its parts are in order, read off the JSON: types, operators, directions and bindings by their texts, references by the types their operators take |
| PerimeterQuery.Compile | app/data_sources/services/dataset_perimeter_compiler.py:162-211 | the query, clause by clause, or the first fault |
| PerimeterMeaning.OperatorMeans | app/data_sources/services/dataset_perimeter_compiler.py:213-258 | in any dialect of LIKE, the expression of a condition the toolkit does not refuse has, on every row, the truth its operator has in three-valued logic |
| PerimeterMeaning.CompilePreservesMeaning | app/data_sources/services/dataset_perimeter_compiler.py:92-136 | whenever a raw perimeter compiles, the condition has on every row the truth of the perimeter read directly off its JSON: the thirteen operators, `AND` and `OR`, groups, references and the legacy form by their texts, with text operators read literally where the dialect takes no character of the operand for special |
| PerimeterMeaning.WordMeans | app/data_sources/services/dataset_perimeter_compiler.py:230-258 | each of the thirteen operators means what is said of its text |
| PerimeterAcceptance.ClausesMean | app/data_sources/services/dataset_perimeter_compiler.py:162-211 | the columns, the order and the limit of the query are those the JSON names, columns in full where none are named |
| PerimeterTyping.OperandsAreTyped | app/data_sources/services/dataset_perimeter_compiler.py:415-442 | text operators are given texts and ordering operators ordered values from parameters, or null |
| PerimeterTyping.CompilesExactly | app/data_sources/services/dataset_perimeter_compiler.py:213-258 | an accepted perimeter with resolved parameters compiles exactly when the table has its columns and no ordering or text operator is given null or a boolean; a missing parameter is never the reason it does not |
| PerimeterTyping.UnsetBoundIsRefused | app/data_sources/services/dataset_perimeter_compiler.py:228-243 | an accepted perimeter with all its columns whose unset parameter makes compilation raise |
| PerimeterTyping.NormalizedCompilesAlike | app/data_sources/services/dataset_perimeter_compiler.py:171 | compiling the normalized perimeter, which normalizes it again, is compiling the original |
| PerimeterTyping.LiteralsCompileAlike | app/data_sources/services/dataset_perimeter_compiler.py:225-230 | compiling with an environment is compiling the perimeter with its non-null values written as literals, which is accepted |
| LikePatterns.TextOperatorExactly | app/data_sources/services/dataset_perimeter_compiler.py:244-249 | in any dialect, default escape and character classes included, a text operator means what it says on every text exactly when its operand has no character LIKE takes for special |
| MockMatch.EqualIsContained | app/mock_servers/services/runtime/mock_runtime_dispatcher.py:41-60 | equal values contain each other, numbers across types included |
| MockMatch.ContainedInItself | app/mock_servers/services/runtime/mock_runtime_dispatcher.py:41-60 | containment is reflexive |
| MockMatch.ContainedThrough | app/mock_servers/services/runtime/mock_runtime_dispatcher.py:41-60 | containment is transitive through dicts, lists and texts |
| MockMatch.MutualIsNotEqual | app/mock_servers/services/runtime/mock_runtime_dispatcher.py:41-60 | values that contain each other need not be equal: lists are compared as sets |
| MockMeaning.ContainedExactly | app/mock_servers/services/runtime/mock_runtime_dispatcher.py:41-60 | a value is contained in another exactly when at every place its names lead to the other has an object, a list holding each element, a surrounding text, or the same scalar |
| MockMeaning.EqualExactly | app/mock_servers/services/runtime/mock_runtime_dispatcher.py:81-89 | values are equal exactly when they have the same places and the same scalars there, numbers by value |
| MockMatch.EqualsAcceptsLess | app/mock_servers/services/runtime/mock_runtime_dispatcher.py:81-89 | a body accepted by `equals` is accepted by `contains` |
| MockMatch.MatchingIsMonotone | app/mock_servers/services/runtime/mock_runtime_dispatcher.py:81-89 | `contains` accepts every body that contains an accepted one |
| MockMeaning.MatchesAllExactly | app/mock_servers/services/runtime/mock_runtime_dispatcher.py:81-89 | a route's body matches every request exactly when there is none or it is the word `any` |
| MockMeaning.TextIsMatched | app/mock_servers/services/runtime/mock_runtime_dispatcher.py:81-89 | a request without JSON is matched by its text, equal or containing |

## Left out

- ContextFrames.RemoveUndoesWrite: below `response` it asks that `result.commands` is an object, because the first write there replaces anything else by one and the removal leaves that object.
- SectionSoundness.SectionSound: references that the checker does not list, such as `constant_ref` bindings of dataset parameters, are not covered, because the checker does not see them either.
- SuiteCourses.SuiteSound: which commands raise or return early is the outside world's choice and a hypothesis; `SuiteSoundExactly` does without it.
- SuiteExactness.SuiteSoundExactly: asks for positive orders, so an item whose only zero is in front, which `StoredOrderExactly` shows to run as planned, is not covered.
- CommandRuntime.ExecuteOperation: publishing, saving, exporting and sleeping are reduced to a value, an early return on empty rows and whether the command raises; an assert to whether it evaluates and passes.
- LikePatterns.TextOperatorExactly: a pattern that ends in its escape, which makes the query fail, and a class that is not closed count as matching nothing; letter case and collations are left to the comparison of equal characters.
- DatasetParameters.Resolve: takes the parameters of a normalized perimeter, which is what its only caller passes; the checks that skip malformed definitions are then idle.
- PerimeterMeaning.CompilePreservesMeaning: the database decides comparisons of values that are not null.
- CommandPolicy.ValidateTargetRoots: the other half of the policy, the table of operation contracts with the scopes each command supports, is not modelled; a refusal by it is one more way to raise.
- RunContexts.SnapshotRoundTrip: serialization is to a dict; its later encoding as JSON text, which dates would not survive, is not modelled.
- SuiteExecutor.Execute: only the selection and the tests raise; failures of the database services and of publishing are not modelled.
- Values stored in a run context are copied, so two places that share one mutable user value in Python do not share it here; the two built-in aliases are shared.
- Texts are sequences of characters with ASCII case folding and digits and Latin-1 blanks; other Unicode letters, digits and blanks are not modelled, and NaN and infinities are not numbers.
- `resolve_dynamic_value`, the structural substitution of references in payloads, and `set_context_var` and `set_context_last`: they would only add easy members.
- Database sessions, entities, migrations, persistence of definitions, queues, routes and user interfaces: input and output.
- Several executions share the bus module; one execution id is modelled, since histories and subscriber lists are kept per id.
- Event payloads, time stamps and heartbeat timing, beyond what the stream's end test sees.
- The mock server's registries, route parameters and headers, and its legacy scenario code.
