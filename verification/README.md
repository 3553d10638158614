# Verified model of the house's configuration, purge and release gates

The repository keeps a house's configuration in versioned descriptors, empties rehearsal data before
opening day, archives legal documents and guards its releases with static checks. This project models
the decision cores of those programs in Dafny and proves what they promise, over all inputs and all runs.

- `Texts`, `Json`: strings in code-point order; JSON values with Python's `==`, which identifies `True`,
  `1` and `1.0`.
- `Planner`, `PlanLog`, `PlanGuarantees`: the three-way merge of what a descriptor declares, what the
  database holds and what was applied last, with its log. The class does what the program does, key by
  key; the specification is a pair of functions, and the theorems are about those. `PlanLaws` tells the merge
  without its walk: what is decided at each path.
- `InstanceModel`, `InstanceRows`, `InstanceItems`, `InstanceApply`, `InstanceConvergence`,
  `InstanceRuns`, `InstanceLaws`, `InstanceStore`: the database of channels, rules, personas and the apply trail, the
  projection that reads it, the writers, the transaction, and runs of applies and operator edits.
- `KeyedTemplates`, `TemplateMerge`, `Pointers`, `DescriptorDiff`: templates as dictionaries and back, what the
  planner makes of them, JSON pointers, the report of differences.
- `RuntimeWalk`, `RuntimeReach`, `RuntimePrecise`: a statement language with a semantics driven by a list of choices, the walk
  that leaves dead code out, and what executions can reach and how they can end, computed from the program.
- `Reachability`, `Observations`, `Ownership`: the worklist closures over qualified dependencies, and the
  gate that makes every top-level symbol owned once.
- `PurgeOrder`, `SyntheticPurge`, `PurgeSafety`, `PurgeRun`: the policy check, the order of deletion and
  the purge transaction.
- `LegalExtractor`, `LegalNesting`, `LegalText`: the tag machine that cuts a legal document out of a page, what it
  does to the page's tree, and what the archived document says.
- `Blanking`: the scanner that blanks comments and literals in place.
- `SurfaceVersions`, `VersionNumbers`, `SurfaceFix`: one version per shared package, the audit and its fix.
- `Ancestry`, `RegistryDrift`, `RegistryAudit`: what is published against what the branch asks for.

`dafny verify dfyconfig.toml` checks the whole project.

## What turned out not to hold

Each is stated as a lemma with its input, beside the exact condition where there is one.

- A channel that was applied and then deleted by the operator is created again by the next apply, under
  every policy: the plan does not look at the base for an item that is missing
  (`InstanceRuns.DeletedChannelComesBack`, `InstanceRuns.AddsOnlyNewExactly`).
- An apply that takes a persona's new name for the ref of a stored group creates a second group with the
  same ref, and the next apply fails (`InstanceRuns.RenameBreaksNextApply`).
- Permissions or channels that are declared out of order, or channel fields that are not stored, read back
  otherwise than declared: unless the operator is kept, the same apply is then refused or writes again, although
  nobody edited anything (`InstanceRuns.UnsortedBreaksNextApply`, `InstanceConvergence.UnreadIsRefused`).
  `InstanceConvergence.ApplyConverges` has the exact condition for this and the former.
- A descriptor that drops the place of a task makes planning fail (`TemplateMerge.DroppedPlaceFails`,
  `TemplateMerge.MergedIsListed`).
- Overwrite removes operational state together with a mapping above it that the descriptor dropped
  (`PlanGuarantees.OverwriteStrips`). Refuse and keep remove it when the base itself holds that state
  (`PlanGuarantees.RefuseLetsGo`); validation keeps it out of every recorded base, so no run of applies does
  (`InstanceRuns.RunKeepsState`). `PlanGuarantees.OperationalStateExactly` is the exact condition for every
  policy and base, `InstanceRuns.ApplyStateExactly` the same after a whole apply.
- The walk over executed statements does not enter class bodies, decorators, defaults and bases, which run, and
  takes a `with` that swallows an exception for one that does not (`RuntimeWalk.ClassBodyIsMissed`,
  `RuntimeWalk.DefHeaderIsMissed`, `RuntimeWalk.SwallowedRaiseIsMissed`). `RuntimeReach.WalkIsSoundExactly` tells the
  programs for which it is sound. It yields statements that are never reached behind a branch whose end is hidden
  (`RuntimePrecise.HiddenEndIsYielded`); `RuntimePrecise.WalkIsPreciseExactly` tells the programs without.
- The policy check looks at kept tables only: a row of a thinned table that survives with a pointer into an
  emptied one aborts the purge (`PurgeSafety.AcceptedPurgeAborts`). `PurgeSafety.PurgeOutcome` tells from the
  state before whether an accepted purge succeeds.
- The diff does not report `true` against `1` inside a list, although it compares types elsewhere
  (`DescriptorDiff.BooleanInListGoesUnreported`, `DescriptorDiff.EmptyWhenEqual`).
- A block comment whose text starts with a slash is taken as closed at once (`Blanking.SlashClosesAtOnce`), and no
  other is misread (`Blanking.BlockCommentExactly`).
- The fix can lower an entry of `dependencies` that `devDependencies` overrides
  (`SurfaceFix.LoweredExample`, `SurfaceFix.LoweredExactlyWhen`).
- A bare `<br>` inside an obfuscated address, any other void element in the document, or a title inside the block
  of dates leaves the extractor inside the document (`LegalNesting.BreakInAddressSticks`,
  `LegalNesting.BareTagSticks`, `LegalNesting.TitleInDatesSticks`).
  `LegalNesting.PlacedExactly` says which pages leave it standing where it was after every element. The state
  at the end of the page alone decides nothing: two misplaced elements can undo each other
  (`LegalNesting.MisplacementsCancel`).

## Model

| member | source | states |
|---|---|---|
| `Planner.Planner.constructor` | config/instance_descriptors.py:557-559 | a planner starts with its drift policy and an empty log |
| `Planner.Planner.Record` | config/instance_descriptors.py:561-567 | one entry with the action, the path and both sides is appended to the log, and nothing else changes |
| `Planner.Planner.OnConflict` | config/instance_descriptors.py:569-576 | overwrite keeps the declared node, refuse and keep the stored one, and the log says which decision was taken |
| `Planner.Planner.Merge` | config/instance_descriptors.py:578-619 | the in-place merge returns exactly the merged tree of the specification and appends exactly its log, for all trees, bases and policies |
| `Planner.Planner.MergeMapping` | config/instance_descriptors.py:579-614 | the loop over the sorted keys of both mappings builds exactly the merged mapping and the logs of its keys in order |
| `Planner.Planner.MergeKey` | config/instance_descriptors.py:583-613 | one key: operational, undeclared, missing from the database, or merged further |
| `PlanLog.LogReplays` | config/instance_descriptors.py:561-619 | carrying out the writing entries of the log on the stored tree gives the merged tree |
| `PlanLog.LogPathsApart` | config/instance_descriptors.py:561-619 | no logged path equals or is a prefix of another |
| `PlanLog.WritesIffChanged` | config/instance_descriptors.py:578-619 | the log has a writing entry if and only if the merged tree differs from the stored one |
| `PlanLaws.LogExactly` | config/instance_descriptors.py:561-619 | the log holds exactly the decisions: at each path that both trees lead to and that is not the operator's, what is decided by the declared, the stored and the base node there, with both sides as they stand |
| `PlanLaws.LogInOrder` | config/instance_descriptors.py:579-614 | its entries come in the order of their paths, key by key in code-point order |
| `PlanLaws.MergedExactly` | config/instance_descriptors.py:578-619 | the merged tree has at each such path what is decided there |
| `PlanLaws.MergedOperational` | config/instance_descriptors.py:583-585 | and at every path of the operator what is stored |
| `PlanLaws.OperatorsPart` | config/instance_descriptors.py:62-73 | the paths of the operator are the switch of a channel, its last gesture and what is paused or hidden |
| `PlanLaws.UndriftedFollows` | config/instance_descriptors.py:592-619 | a stored tree that is as it was applied last follows the descriptor under every policy, at every path that is not the operator's |
| `PlanLaws.UndriftedLog` | config/instance_descriptors.py:592-619 | and its log holds nothing but additions, updates and removals |
| `PlanGuarantees.PoliciesAgreeOffConflicts` | config/instance_descriptors.py:569-619 | any two policies log the same paths in the same order, with the same decision everywhere but at conflicts |
| `PlanGuarantees.NoConflictSameTarget` | config/instance_descriptors.py:569-619 | when refuse meets no conflict, every policy yields the same log and the same target |
| `PlanGuarantees.OperationalStateSurvives` | config/instance_descriptors.py:592-619 | refuse and keep, every base: an operational path reads as stored exactly when nothing stood there or no mapping above it is stored as applied last and declared otherwise |
| `PlanGuarantees.OperationalStateUnderOverwrite` | config/instance_descriptors.py:592-619 | overwrite, every base: an operational path reads as stored exactly when nothing stood there or each mapping above it is still declared or was never applied |
| `PlanGuarantees.OperationalStateExactly` | config/instance_descriptors.py:592-619 | both in one statement, for every policy, every base and every operational path, enabled included |
| `PlanGuarantees.CleanBaseKeeps` | config/instance_descriptors.py:478-492 | a base that holds nothing at the path, as every descriptor accepted by validation, gives refuse and keep no reason to let it go |
| `PlanGuarantees.RefuseLetsGo` | config/instance_descriptors.py:595-598 | a tree and a base that holds operational state, from which refuse removes it |
| `PlanGuarantees.OverwriteStrips` | config/instance_descriptors.py:592-606 | a tree that overwrite strips of operational state although the base holds none |
| `PlanGuarantees.StateNotNested` | config/instance_descriptors.py:62-73 | no operational path lies inside another |
| `PlanGuarantees.NoLostEdit` | config/instance_descriptors.py:592-619 | under refuse and keep every cell is unchanged, or was exactly what the base declared, or was absent from both |
| `PlanGuarantees.MergeSettles` | config/instance_descriptors.py:578-619 | after a merge without conflict the result is settled with respect to the descriptor |
| `PlanGuarantees.SettledQuiet` | config/instance_descriptors.py:578-619 | merging again over a settled tree with the descriptor as base changes nothing, and under refuse and overwrite logs nothing |
| `PlanGuarantees.SettledWritesNothing` | config/instance_descriptors.py:578-619 | under every policy it logs no write and no conflict |
| `PlanGuarantees.KeepNeverConflicts` | config/instance_descriptors.py:569-576 | the keep policy never logs a conflict |
| `InstanceModel.KeyedIsTable` | config/instance_descriptors.py:528-542 | a keyed section has each ref once and holds exactly the last item given for it |
| `InstanceModel.ConflictsAreLogged` | config/instance_descriptors.py:934-938 | the conflicts reported are exactly the entries of the log with that action |
| `InstanceModel.ConflictsInOrder` | config/instance_descriptors.py:934-938 | they are reported in the order of the log, each as often as it stands there |
| `InstanceStore.InstanceStore.constructor` | config/instance_descriptors.py:887-893 | a store holds the database it is given |
| `InstanceStore.InstanceStore.PlanItem` | config/instance_descriptors.py:673-679 | an item that is not stored is planned as declared and logged as created; a stored one is merged |
| `InstanceStore.InstanceStore.PlanSection` | config/instance_descriptors.py:670-683 | a section is planned item by item with its log in that order |
| `InstanceStore.InstanceStore.PlanName` | config/instance_descriptors.py:654-667 | the display name is created or merged |
| `InstanceStore.InstanceStore.PlanApply` | config/instance_descriptors.py:644-695 | the plan is that of the specification and the store is not touched |
| `InstanceStore.InstanceStore.ApplyChannels` | config/instance_descriptors.py:729-745 | the channel table afterwards, or the item that cannot be written |
| `InstanceStore.InstanceStore.ApplyRules` | config/instance_descriptors.py:748-774 | the rule table afterwards, or the refusal of an incomplete rule or an unknown channel |
| `InstanceStore.InstanceStore.SyncPersonas` | config/instance_descriptors.py:777-808 | the groups afterwards, or the refusal of a name that does not match its ref or of an unknown permission |
| `InstanceStore.InstanceStore.WriteAll` | config/instance_descriptors.py:940-952 | shop, channels, rules and personas are written in that order, stopping at the first failure |
| `InstanceStore.InstanceStore.CarryOut` | config/instance_descriptors.py:934-965 | a dry run and every failure leave the store as it was; otherwise everything is written and the trail extended |
| `InstanceStore.InstanceStore.ApplyToDatabase` | config/instance_descriptors.py:886-965 | the method changes the store exactly as the transaction of the specification says and returns its report |
| `InstanceItems.ChannelNoLoss` | config/instance_descriptors.py:729-745 | writing a merged channel loses no edit: each cell of the stored channel is accounted for after the write |
| `InstanceItems.ChannelStateSurvives` | config/instance_descriptors.py:729-745 | writing a merged channel, under every policy and base, leaves its operational state as it was exactly when nothing stood there or it is not given up |
| `InstanceItems.ChannelConverges` | config/instance_descriptors.py:265-277 | a written channel, read back, is settled, and writing it again changes nothing |
| `InstanceItems.RuleNoLoss` | config/instance_descriptors.py:748-774 | writing a merged rule loses no edit |
| `InstanceItems.RuleConverges` | config/instance_descriptors.py:278-291 | a written rule, read back, is settled, and writing it again changes nothing |
| `InstanceItems.PersonaNoLoss` | config/instance_descriptors.py:777-808 | a group keeps its permissions or had exactly the declared ones |
| `InstanceItems.PersonaConverges` | config/instance_descriptors.py:293-305 | a synchronised group, read back, is settled, and synchronising again grants the same |
| `InstanceConvergence.ApplyConverges` | config/instance_descriptors.py:886-965 | after any successful apply, the same apply plans no write, changes nothing and appends no record if and only if no persona renamed a group and, unless the operator is kept, channels declare only stored fields and the lists stored as sets are declared sorted |
| `InstanceConvergence.UnreadIsRefused` | config/instance_descriptors.py:569-576 | under refuse, any successful apply of a descriptor with an unstored channel field or an unsorted list makes the same apply fail |
| `InstanceConvergence.RenamesBreakRefs` | config/instance_descriptors.py:777-808 | group refs stay unique exactly when no persona writes under a new name for the ref of a stored group |
| `InstanceConvergence.DuplicatesRefuse` | config/instance_descriptors.py:306-308 | two groups with the same ref make every apply fail |
| `InstanceConvergence.TrailRecords` | config/instance_descriptors.py:954-965 | a successful apply appends one record of exactly this call when its log has a writing entry or the descriptor is not the one applied last, and none otherwise |
| `InstanceRuns.ApplyKeepsChannelEdits` | config/instance_descriptors.py:592-619 | an apply under refuse or keep, from any database and trail, changes a stored channel cell only where the last recorded descriptor declared exactly that value, and adds one only where both had none |
| `InstanceRuns.ApplyKeepsRuleEdits` | config/instance_descriptors.py:592-619 | the same for rules |
| `InstanceRuns.ApplyKeepsGroupEdits` | config/instance_descriptors.py:777-808 | the same for groups and their permissions |
| `InstanceRuns.ApplyKeepsShopName` | config/instance_descriptors.py:654-667 | the same for the display name of the shop |
| `InstanceRuns.ItemsCreated` | config/instance_descriptors.py:672-679 | after an apply the channels, rules and groups are those there before and those declared |
| `InstanceRuns.AddsOnlyNewExactly` | config/instance_descriptors.py:674-677 | in each section, only items that were never applied are added if and only if no declared and applied item is missing from the database |
| `InstanceRuns.DeletedChannelComesBack` | config/instance_descriptors.py:674-677 | a run under any policy: an apply creates a channel, the operator deletes it, and the next apply creates it again |
| `InstanceRuns.RenameBreaksNextApply` | config/instance_descriptors.py:777-808 | under every policy, two names with one slug: an apply that succeeds, renames a persona and makes the next apply fail |
| `InstanceRuns.UnsortedBreaksNextApply` | config/instance_descriptors.py:293-305 | permissions declared out of order: an apply under refuse that succeeds and makes the same apply fail |
| `InstanceRuns.TrailStaysClean` | config/instance_descriptors.py:478-492 | over every run of edits and applies no recorded descriptor declares operational state |
| `InstanceRuns.ApplyStateExactly` | config/instance_descriptors.py:886-965 | after any successful apply, under every policy and from any trail, an operational path of a channel reads as before exactly when nothing stood there or it was not given up |
| `InstanceRuns.RunKeepsState` | config/instance_descriptors.py:62-73 | after any run, a further apply under refuse or keep leaves the operational state of every channel as it was |
| `InstanceRuns.EditSurvivesApplies` | config/instance_descriptors.py:592-627 | a value that no recorded or applied descriptor declares survives any number of applies under refuse and keep, in a channel, a rule, a group or the name of the shop |
| `InstanceLaws.AcceptedExactly` | config/instance_descriptors.py:905-908 | an apply plans at all if and only if it has an actor, no channel declares operational state, there is at most one shop and group refs are clear |
| `InstanceLaws.NothingHalfDone` | config/instance_descriptors.py:905-941 | a refused call, a dry run and a call that fails leave everything as it was |
| `InstanceLaws.PlanTells` | config/instance_descriptors.py:644-695 | the plan reports exactly what is decided: a shop or item that is not there is created as declared, and of the others every decision at its place |
| `InstanceLaws.EmptyExactly` | config/instance_descriptors.py:265-291 | a free column is listed as an empty mapping exactly when it holds an empty value |
| `InstanceLaws.CreatedChannel` | config/instance_descriptors.py:729-745 | a channel that is created holds what is declared and the defaults for the rest |
| `InstanceLaws.CreatedRule` | config/instance_descriptors.py:748-774 | a rule that is created holds what is declared, its channels are exactly the declared ones, and it is on unless declared off |
| `InstanceLaws.ChannelsDelivered` | config/instance_descriptors.py:886-965 | after a successful apply under refuse or overwrite every declared cell of a channel reads as declared, but for operational state |
| `InstanceLaws.RulesDelivered` | config/instance_descriptors.py:886-965 | the same for rules |
| `InstanceLaws.PersonasDelivered` | config/instance_descriptors.py:777-808 | and the group of every persona holds exactly the declared permissions |
| `Pointers.UnescapeEscape` | config/instance_descriptors.py:524-525 | section 4 of RFC 6901 undoes the escaping of a key |
| `Pointers.PointerDecodes` | config/instance_descriptors.py:524-525 | the pointer of a non-empty path decodes to that path |
| `Pointers.PointersDiffer` | config/instance_descriptors.py:524-525 | different non-empty paths have different pointers |
| `Pointers.EmptyPathIsAmbiguous` | config/instance_descriptors.py:524-525 | the empty path has the pointer of the path to an empty key |
| `Pointers.PointerExtends` | config/instance_descriptors.py:502-503 | a pointer grows by one escaped key at a time |
| `DescriptorDiff.DiffIsTruthful` | config/instance_descriptors.py:495-518 | each entry of the report has the pointer of its place and the values both sides really have there |
| `DescriptorDiff.PlacesDiffer` | config/instance_descriptors.py:495-518 | no place is reported twice |
| `DescriptorDiff.PathsDiffer` | config/instance_descriptors.py:495-518 | the pointers of one report are all different |
| `DescriptorDiff.EmptyWhenEqual` | config/instance_descriptors.py:495-518 | the report is empty if and only if the values are equal up to the numbers that == identifies inside lists |
| `DescriptorDiff.BooleanInListGoesUnreported` | config/instance_descriptors.py:511-514 | a list of true against a list of 1 is not reported |
| `DescriptorDiff.EmptyExactlyWhenEqual` | config/instance_descriptors.py:495-518 | without booleans and floats inside lists the report is empty exactly when the values are equal |
| `DescriptorDiff.SwapSides` | config/instance_descriptors.py:495-518 | comparing the other way round reports the same pointers with the sides exchanged |
| `KeyedTemplates.Key` | config/instance_descriptors.py:533-539 | the loops build the keyed form of the templates and of their tasks |
| `KeyedTemplates.Unkey` | config/instance_descriptors.py:545-553 | the loop builds the lists again, or fails at a task without a sort order |
| `KeyedTemplates.DictOfList` | config/instance_descriptors.py:533-539 | distinct keys make a dictionary that is the list itself, a repeated key a shorter one |
| `KeyedTemplates.SortTasksSorts` | config/instance_descriptors.py:551-551 | sorting keeps the tasks and puts them in order of sort order and ref |
| `KeyedTemplates.RoundTrip` | config/instance_descriptors.py:528-553 | with unique refs, keyed and back gives the same templates with their tasks in order, or the failure of a task without a place |
| `KeyedTemplates.ProjectionComesBack` | config/instance_descriptors.py:184-221 | what the database projection emits comes back unchanged |
| `KeyedTemplates.RoundTripNeedsUniqueRefs` | config/instance_descriptors.py:528-553 | templates whose tasks all have a place come back if and only if refs are unique |
| `TemplateMerge.ListedExactly` | config/instance_descriptors.py:545-553 | a keyed template is listed if and only if each of its tasks has a place |
| `TemplateMerge.MergedIsListed` | config/instance_descriptors.py:670-683 | a declared template merged over a stored one, under any policy and base, is listed if and only if no task declared without a place loses the stored one |
| `TemplateMerge.PlacedNeverFails` | config/instance_descriptors.py:670-683 | with every declared task in its place, no policy and no base can make the listing fail |
| `TemplateMerge.DroppedPlaceFails` | config/instance_descriptors.py:551-551 | a descriptor that drops the place of a task it applied before makes planning fail under every policy |
| `RuntimeReach.OutcomesExactly` | scripts/check_orchestrator_units.py:186-210 | the ways a block can end, computed by recursion, are exactly those of its executions |
| `RuntimeReach.ReachedExactly` | scripts/check_orchestrator_units.py:213-248 | the statements computed as reachable are exactly those that some execution reaches |
| `RuntimeReach.NoFallThrough` | scripts/check_orchestrator_units.py:186-210 | a statement judged to terminate never completes normally, in any execution, if and only if it ends in no with that can swallow an exception |
| `RuntimeReach.NoBlockFallThrough` | scripts/check_orchestrator_units.py:199-209 | the same for a block whose last statement is judged so |
| `RuntimeReach.PruningPreservesRuns` | scripts/check_orchestrator_units.py:213-248 | leaving out what the walk leaves out preserves every execution of a sound block: trace, outcome and choices |
| `RuntimeReach.PruningExactly` | scripts/check_orchestrator_units.py:213-248 | and, where no two statements share an id, of the sound blocks only |
| `RuntimeReach.RunStaysInProgram` | scripts/check_orchestrator_units.py:213-248 | an execution reaches only statements of the program |
| `RuntimeWalk.WalkIsPruned` | scripts/check_orchestrator_units.py:213-248 | the walk yields exactly the statements of the pruned program |
| `RuntimeReach.WalkIsSound` | scripts/check_orchestrator_units.py:213-248 | every statement that some execution of a sound block reaches is yielded |
| `RuntimeReach.WalkIsSoundExactly` | scripts/check_orchestrator_units.py:213-248 | all executions stay in the walk if and only if no reachable statement is a class with a body or a definition with decorators, defaults or bases, or is judged to terminate, can end normally and has statements after it |
| `RuntimePrecise.StopsWhereControlStops` | scripts/check_orchestrator_units.py:186-210 | a statement whose branches run on to their ends is judged to terminate if and only if no execution completes it normally |
| `RuntimePrecise.WalkIsExact` | scripts/check_orchestrator_units.py:213-248 | on tidy programs a statement is yielded if and only if some execution reaches it |
| `RuntimePrecise.WalkIsPreciseExactly` | scripts/check_orchestrator_units.py:213-248 | every yielded statement is reached by some execution if and only if nothing stands behind a statement that never ends normally and is not recognised, or in a part of a try that is never entered |
| `RuntimePrecise.HiddenEndIsYielded` | scripts/check_orchestrator_units.py:191-209 | dead code inside a branch: a statement is yielded that no execution reaches |
| `RuntimeWalk.ClassBodyIsMissed` | scripts/check_orchestrator_units.py:216-229 | a class body runs where it stands and is not yielded |
| `RuntimeWalk.DefHeaderIsMissed` | scripts/check_orchestrator_units.py:216-229 | a decorator or default of a function runs where it stands and is not yielded |
| `RuntimeWalk.SwallowedRaiseIsMissed` | scripts/check_orchestrator_units.py:208-209 | after a with that swallows an exception execution goes on to a statement that is not yielded |
| `Reachability.ClosureIsLeast` | scripts/check_orchestrator_units.py:949-966 | the closure lies in every set that holds the start and is closed under dependencies |
| `Reachability.ClosureIsReach` | scripts/check_orchestrator_units.py:949-966 | the closure is exactly what chains of dependencies reach |
| `Reachability.Walk` | scripts/check_orchestrator_units.py:956-966 | the worklist ends, and what it has seen is the least closed set, whatever the order in which dependencies are added |
| `Reachability.ReachableSymbols` | scripts/check_orchestrator_units.py:949-972 | an authority is returned exactly when a chain of dependencies leads from the entry point to it or to one of its members |
| `Reachability.MemberExactly` | scripts/check_orchestrator_units.py:966-972 | a member of an authority is written after it, behind a dot |
| `Observations.ExpandedSymbols` | scripts/check_orchestrator_units.py:263-289 | the observed symbols are the least set holding the given ones and the helpers of its members |
| `Observations.AddHelpers` | scripts/check_orchestrator_units.py:276-288 | one symbol adds exactly its unobserved helpers of the same module |
| `Observations.OnlyHelpers` | scripts/check_orchestrator_units.py:279-286 | nothing is observed but the given symbols and defined helpers |
| `Observations.ScopedObservations` | scripts/check_orchestrator_units.py:459-486 | the observations of each of the five categories, sorted, are the own ones and those of every support reference in the closure that expands support only |
| `Observations.Visit` | scripts/check_orchestrator_units.py:470-485 | one reference is expanded and observed exactly when it is resolvable support of another module |
| `Observations.GatheredExactly` | scripts/check_orchestrator_units.py:459-486 | a use is observed if and only if it is the own one or that of support reached through support alone |
| `Observations.OwnershipStops` | scripts/check_orchestrator_units.py:459-480 | every reference that a route passes through is support |
| `Observations.SupportExactly` | scripts/check_orchestrator_units.py:470-482 | support is a resolvable reference of another module whose top-level symbol is claimed as support |
| `Observations.HelperExactly` | scripts/check_orchestrator_units.py:279-286 | a helper is a definition of the same module |
| `Observations.NoReference` | scripts/check_orchestrator_units.py:470-482 | what is not written as a reference is neither |
| `Observations.ReportedExactly` | scripts/check_orchestrator_units.py:450-457 | a report lists for every category exactly the names used in it, in order |
| `Ownership.CheckSource` | scripts/check_orchestrator_units.py:1702-1761 | a source passes exactly when its claims are in order, of known symbols, each once, and an empty file has one empty claim and no unit |
| `Ownership.CheckSupport` | scripts/check_orchestrator_units.py:1750-1761 | support claims pass exactly when sorted, known and without overlap |
| `Ownership.CheckInventory` | scripts/check_orchestrator_units.py:1676-1683 | the inventory passes exactly when it lists every file once and each entry passes |
| `Ownership.CheckIds` | scripts/check_orchestrator_units.py:1792-1800 | unit ids are unique and the inventory and the manifests name the same units |
| `Ownership.RegisterSupport` | scripts/check_orchestrator_units.py:1838-1843 | the owners recorded are those of the support claims |
| `Ownership.ClaimSymbols` | scripts/check_orchestrator_units.py:1903-1907 | claims go through exactly when no symbol is claimed twice or owned already, and then each has its owner |
| `Ownership.ClaimUnit` | scripts/check_orchestrator_units.py:1881-1907 | a unit goes through exactly when its claims are well formed, known and fresh |
| `Ownership.ClaimUnits` | scripts/check_orchestrator_units.py:1851-1907 | all units go through exactly when each does; earlier owners stay and every claimed symbol gets its unit |
| `Ownership.CheckClaims` | scripts/check_orchestrator_units.py:1838-2026 | the claims pass exactly when the units are well formed and every definition is claimed once |
| `Ownership.CheckDrift` | scripts/check_orchestrator_units.py:2056-2061 | each file names exactly the units that claim it |
| `Ownership.IdsFollow` | scripts/check_orchestrator_units.py:1792-1800 | the comparison of ids can only fail when the comparison at the end fails |
| `Ownership.Validate` | scripts/check_orchestrator_units.py:1676-2061 | the gate passes if and only if ownership is exact |
| `Ownership.EachSymbolOwnedOnce` | scripts/check_orchestrator_units.py:1838-2026 | in an accepted inventory a symbol is defined exactly when it is owned, once, by one unit or by support and not by both |
| `Ownership.ClaimExactly` | scripts/check_orchestrator_units.py:1881-1902 | the claim of a unit is accepted if and only if it names symbols its file defines, and none only where the file is empty |
| `Ownership.SupportClaimExactly` | scripts/check_orchestrator_units.py:1750-1761 | so for support, whose symbols are listed in order, each once |
| `PurgeOrder.DeleteOrder` | config/synthetic_purge.py:368-390 | the order is a permutation of the tables; referring tables come first exactly when the references have no cycle |
| `PurgeOrder.Pass` | config/synthetic_purge.py:372-386 | one pass places at least one table, or every pending table has a pending referrer |
| `PurgeOrder.NoSourceMeansCycle` | config/synthetic_purge.py:387-389 | the fallback is only taken when a cycle exists |
| `PurgeOrder.CycleHasNoOrder` | config/synthetic_purge.py:387-389 | with a cycle no order puts every referring table first |
| `SyntheticPurge.CheckPolicy` | config/synthetic_purge.py:340-365 | no problem is reported exactly when tables and policy match and no kept table points into an emptied one without letting go, and every such pointer is reported |
| `SyntheticPurge.Mismatches` | config/synthetic_purge.py:343-350 | exactly the tables without policy and the policies without table are named, each in name order, and none when both match |
| `SyntheticPurge.CheckTable` | config/synthetic_purge.py:351-363 | the pointers reported of one table are exactly those that dangle |
| `SyntheticPurge.Cascaded` | config/synthetic_purge.py:509-512 | the cascade contains the selected rows, only rows of the database, and everything that cascades from it |
| `PurgeSafety.CascadedLeast` | config/synthetic_purge.py:509-512 | the cascade is the least such set |
| `PurgeSafety.CascadesAdd` | config/synthetic_purge.py:509-515 | cascading table by table removes what cascading from all selected rows at once would remove |
| `PurgeSafety.PurgeIsSafe` | config/synthetic_purge.py:472-532 | after an accepted purge no kept row points into an emptied table, emptied tables are empty, each kept table shrank by its recorded cascade, and the rows gone are exactly those cascading from the selection |
| `PurgeSafety.AuditNeverFires` | config/synthetic_purge.py:520-527 | the audit of table sizes never aborts an accepted purge |
| `PurgeSafety.ConsistentExactly` | config/synthetic_purge.py:484-517 | from consistent tables, the keys hold after the deletions exactly when no surviving row points into an emptied table, or at a removed row by a key that asks for nothing to be done |
| `PurgeSafety.ProtectedExactly` | config/synthetic_purge.py:508-515 | the mixed tables stop at a protected row exactly when, in the state before, a row still there at the turn of a table protects what that table would take along |
| `PurgeSafety.PurgeOutcome` | config/synthetic_purge.py:472-532 | an accepted purge of consistent tables fails on a protected row, on a constraint or not at all, and the state before decides which |
| `PurgeSafety.AcceptedPurgeAborts` | config/synthetic_purge.py:484-517 | an accepted policy and consistent tables whose purge is aborted by the constraint check |
| `PurgeSafety.StrandedIsMixed` | config/synthetic_purge.py:351-363 | after an accepted policy only a row of a thinned table can point into an emptied one |
| `PurgeSafety.SurvivorsKept` | config/synthetic_purge.py:484-515 | the rows after the purge are those that survive, and each is what it was, flags and pointers, but for the fields its table lets go of and the pointers that ask for null and pointed at a row that left |
| `PurgeSafety.CascadeExactly` | config/synthetic_purge.py:508-515 | the counts of the report are exactly the losses of the kept tables |
| `PurgeSafety.EmptyingKeepsKeys` | config/synthetic_purge.py:502-506 | emptying tables with the referring ones first never leaves a key without its row, at no point on the way |
| `PurgeSafety.OperatorsStay` | config/synthetic_purge.py:71-76 | an operator, and whoever has no customer behind the account, keeps the account and its flags |
| `PurgeSafety.CustomersLeave` | config/synthetic_purge.py:71-76 | the account of a customer without any role of an operator is gone |
| `PurgeSafety.MixedTableLoses` | config/synthetic_purge.py:484-490 | a thinned table without cascading keys loses exactly the rows selected before anything was deleted |
| `PurgeSafety.AccountsRemoved` | config/synthetic_purge.py:71-76 | the accounts removed are exactly the customer accounts of the state before |
| `PurgeSafety.AccountsSeenTooLate` | config/synthetic_purge.py:484-490 | selecting after the raw deletes would find no account |
| `PurgeRun.Collect` | config/synthetic_purge.py:512-512 | collecting batch by batch gives exactly the cascade |
| `PurgeRun.Warehouse.constructor` | config/synthetic_purge.py:472-476 | a warehouse holds its models, its policy and its tables |
| `PurgeRun.Warehouse.CountAll` | config/synthetic_purge.py:468-469 | every table is counted |
| `PurgeRun.Warehouse.DetachOne` | config/synthetic_purge.py:493-500 | one table lets go of its fields, and each is counted with the pointers it held |
| `PurgeRun.Warehouse.DetachAll` | config/synthetic_purge.py:492-500 | every table lets go of exactly the fields its rule lists |
| `PurgeRun.Warehouse.EmptyDoomed` | config/synthetic_purge.py:502-506 | exactly the tables to be purged are emptied |
| `PurgeRun.Warehouse.DeleteMixedRows` | config/synthetic_purge.py:508-515 | the selected rows leave with their cascade, table by table, and the losses of kept tables are counted; a protected row stops it |
| `PurgeRun.Warehouse.Carry` | config/synthetic_purge.py:492-515 | detaching, emptying and thinning in this order |
| `PurgeRun.Warehouse.Audit` | config/synthetic_purge.py:519-525 | the list names exactly the tables that did not end as their action promises, in name order, each once and with its true sizes; it is empty exactly when there is none |
| `PurgeRun.Warehouse.Attempt` | config/synthetic_purge.py:478-527 | the steps inside the transaction end as the specification says, with true counts |
| `PurgeRun.Warehouse.Run` | config/synthetic_purge.py:472-532 | refused exactly when the policy is; a dry run and every failure leave the tables as they were; an applied run leaves what the transaction leaves |
| `LegalExtractor.Extractor.constructor` | scripts/archive_legal_version.py:83-92 | the machine starts outside everything |
| `LegalExtractor.Extractor.HandleStartTag` | scripts/archive_legal_version.py:97-144 | a start tag changes the machine exactly as the step function says |
| `LegalExtractor.Extractor.HandleEndTag` | scripts/archive_legal_version.py:146-170 | so does an end tag |
| `LegalExtractor.Extractor.HandleStartEndTag` | scripts/archive_legal_version.py:172-174 | so does a self-closing tag |
| `LegalExtractor.Extractor.HandleData` | scripts/archive_legal_version.py:176-186 | so does text |
| `LegalExtractor.Extractor.Feed` | scripts/archive_legal_version.py:75-186 | feeding events one by one is running the step function over them |
| `LegalExtractor.Escape` | scripts/archive_legal_version.py:121-144 | escaped text holds no angle bracket, and no double quote in an attribute |
| `LegalText.UnescapeEscape` | scripts/archive_legal_version.py:121-144 | what is escaped reads as it was, in text and in attributes |
| `LegalText.PageSays` | scripts/archive_legal_version.py:75-186 | reading the archived document of a well-placed page is reading the texts of the page that belong to it, in order, addresses decoded, with a line end after each block; the dates are the texts of their block |
| `LegalText.DocumentIsCut` | scripts/archive_legal_version.py:75-186 | of a page as the site renders it exactly the title, the dates and the body are cut out |
| `LegalText.AttrExactly` | scripts/archive_legal_version.py:98-98 | an attribute has the value that is given last |
| `LegalText.HasClassExactly` | scripts/archive_legal_version.py:99-99 | a class is set if and only if it stands in the attribute between spaces or its ends |
| `LegalText.MarksExactly` | scripts/archive_legal_version.py:100-121 | header, dates, document and address are told by their tag and one attribute |
| `LegalText.CleanedExactly` | scripts/archive_legal_version.py:127-140 | an element keeps exactly its kept attributes, each read as its value, links as they are archived |
| `LegalText.KeptExactly` | scripts/archive_legal_version.py:47-47 | only links and the anchors of sections are kept |
| `LegalText.TagsExactly` | scripts/archive_legal_version.py:45-46 | the tags that are kept, the one that stands alone and those that end a line |
| `LegalText.LineExactly` | scripts/archive_legal_version.py:141-143 | a block line of an address gets a class of its own |
| `LegalText.AddressLink` | scripts/archive_legal_version.py:133-134 | a link to an obfuscated address becomes a link to the address |
| `LegalText.DocumentLink` | scripts/archive_legal_version.py:135-139 | a link to another document leads to its archived copy at the same fragment, any other link stays as it is |
| `LegalNesting.EndUndoesStart` | scripts/archive_legal_version.py:97-170 | an end tag undoes what its start tag did to the machine, whatever was written in between |
| `LegalNesting.EndUndoesStartExactly` | scripts/archive_legal_version.py:97-170 | the machine stands after an element where it stood before if and only if the element is well placed there |
| `LegalNesting.RunIsRender` | scripts/archive_legal_version.py:75-186 | on a page whose elements are well placed the machine performs a transformation of the tree and is otherwise back where it was |
| `LegalNesting.PlacedExactly` | scripts/archive_legal_version.py:75-186 | from any state in which an address is only open inside the captured part, a page is well placed if and only if every node of it, at any depth, leaves the machine standing where it stood |
| `LegalNesting.RenderIsBalanced` | scripts/archive_legal_version.py:97-170 | what the transformation writes is well nested |
| `LegalNesting.RenderIsKept` | scripts/archive_legal_version.py:45-47 | what it writes are kept tags with kept attributes, and text that cannot be taken for markup |
| `LegalNesting.PageIsCutClean` | scripts/archive_legal_version.py:75-186 | the machine ends with depth 0 and an empty stack, and its output is well nested and kept only |
| `LegalNesting.LinksAreArchived` | scripts/archive_legal_version.py:131-140 | what is written for one link does not lead to the live route of a document |
| `LegalNesting.WrittenLinksAreArchived` | scripts/archive_legal_version.py:97-144 | on any page, well nested or not, no link in what the machine writes leads to the live route of a document |
| `LegalNesting.EscapeIsInjective` | scripts/archive_legal_version.py:140-140 | the link can be read off the attribute: no two texts are escaped alike |
| `LegalNesting.BreakInAddressSticks` | scripts/archive_legal_version.py:118-124 | a bare break inside an obfuscated address leaves the document open |
| `LegalNesting.BareTagSticks` | scripts/archive_legal_version.py:125-126 | so does every other void element in the document, an image or a rule |
| `LegalNesting.TitleInDatesSticks` | scripts/archive_legal_version.py:102-108 | a title inside the block of dates is counted as begun and never as ended |
| `LegalNesting.MisplacementsCancel` | scripts/archive_legal_version.py:97-170 | a page with two misplaced elements after which the machine stands where it began |
| `Blanking.Blank` | scripts/check_silent_swallow.py:320-363 | the scan in place produces exactly the text as read by the one-character reader |
| `Blanking.SkipLine` | scripts/check_silent_swallow.py:333-337 | a line comment is blanked up to its newline |
| `Blanking.SkipBlock` | scripts/check_silent_swallow.py:338-347 | a block comment is blanked up to and with its closing mark |
| `Blanking.SkipLiteral` | scripts/check_silent_swallow.py:348-361 | a literal is blanked up to its closing quote, which stays |
| `Blanking.Backslash` | scripts/check_silent_swallow.py:352-358 | a backslash and the character it escapes are blanked |
| `Blanking.OffsetsKept` | scripts/check_silent_swallow.py:320-363 | same length, same newlines, every other character kept or turned into a space |
| `Blanking.LinesAgree` | scripts/check_silent_swallow.py:372-373 | an offset lies on the same line of the blanked text and of the source |
| `Blanking.LineCounts` | scripts/check_silent_swallow.py:372-373 | the line of an offset is one more than the newlines before it |
| `Blanking.BlankingIsIdempotent` | scripts/check_silent_swallow.py:320-363 | blanking twice is blanking once |
| `Blanking.NoCommentLeft` | scripts/check_silent_swallow.py:333-347 | no position of the blanked text opens a comment |
| `Blanking.LineCommentErased` | scripts/check_silent_swallow.py:333-337 | a line comment becomes spaces, and reading goes on after it as from the start of a text |
| `Blanking.BlockCommentErased` | scripts/check_silent_swallow.py:338-347 | a block comment becomes spaces up to its first closing mark, the opening star counting as the star of one |
| `Blanking.SlashClosesAtOnce` | scripts/check_silent_swallow.py:338-347 | a comment whose text starts with a slash is closed at once and its text read as code |
| `Blanking.BlockCommentExactly` | scripts/check_silent_swallow.py:338-347 | the text of a block comment is read as a comment throughout if and only if it does not start with a slash |
| `Blanking.LiteralErased` | scripts/check_silent_swallow.py:348-361 | a literal keeps its quotes and loses what stands between them, escapes included |
| `Blanking.CodeKept` | scripts/check_silent_swallow.py:362-362 | code without quotes and slashes is untouched |
| `SurfaceVersions.KeyLeTotal` | scripts/check_surface_versions.py:141-147 | any two versions compare |
| `SurfaceVersions.KeyLeTransitive` | scripts/check_surface_versions.py:141-147 | the comparison is transitive, also between number lists of different lengths |
| `SurfaceVersions.FindingTells` | scripts/check_surface_versions.py:202-227 | a finding tells the version the app has, which differs from the expected one, and exactly the apps without exception that have the expected one |
| `VersionNumbers.NumbersAreWritten` | scripts/check_surface_versions.py:141-147 | the numbers of a version are the numbers written in it, in decimal |
| `VersionNumbers.SortKeyIsWritten` | scripts/check_surface_versions.py:141-147 | the sort key is made of the first four of them, or is zero when there is none |
| `VersionNumbers.KeyLeExactly` | scripts/check_surface_versions.py:141-147 | keys compare at the first place where they differ, and a beginning comes before the whole |
| `SurfaceVersions.ReferenceVersion` | scripts/check_surface_versions.py:150-165 | the highest version, and among equally high ones that of the first app |
| `SurfaceVersions.Compare` | scripts/check_surface_versions.py:202-227 | the findings of one package are those of the diverging apps in name order |
| `SurfaceVersions.AuditOne` | scripts/check_surface_versions.py:179-227 | exactly the findings of one package along one dimension, each once, in the order of the apps |
| `SurfaceVersions.Audit` | scripts/check_surface_versions.py:168-228 | exactly the divergences that must be reported, each once, by package, dimension and app |
| `SurfaceFix.Workspace.constructor` | scripts/check_surface_versions.py:112-138 | a workspace holds the manifests |
| `SurfaceFix.Workspace.ApplyFix` | scripts/check_surface_versions.py:300-326 | the manifests of the reported apps get the expected ranges, and no other manifest changes |
| `SurfaceFix.Rewrite` | scripts/check_surface_versions.py:314-322 | one manifest is rewritten item by item and field by field |
| `SurfaceFix.GroupByApp` | scripts/check_surface_versions.py:307-309 | the findings are grouped by app in their order |
| `SurfaceFix.SecondAuditIsClean` | scripts/check_surface_versions.py:168-228 | after the fix an audit finds no divergent range, and about lock files what it found before |
| `SurfaceFix.NeverLowered` | scripts/check_surface_versions.py:300-326 | the range in force in an app is never lowered |
| `SurfaceFix.LoweredExactlyWhen` | scripts/check_surface_versions.py:316-318 | an entry of dependencies is lowered exactly when its app is reported and the entry is above the expected range, and then devDependencies overrides it |
| `SurfaceFix.LoweredExample` | scripts/check_surface_versions.py:316-318 | a concrete manifest whose overridden entry goes from 9 down to 2 |
| `SurfaceFix.ExceptionLeftAlone` | scripts/check_surface_versions.py:207-213 | an excepted app that does not lag behind keeps its entries |
| `Ancestry.LastTouchingIsLast` | scripts/deploy_components.py:248-266 | the commit found touched the component, lies before the ref, and every other that touched it lies before it |
| `Ancestry.UntouchedIsEmpty` | scripts/deploy_components.py:248-266 | without such a commit the component has no files |
| `Ancestry.AncestryIsOrder` | scripts/deploy_components.py:231-232 | no two commits are each before the other |
| `Ancestry.ContainedIsSame` | scripts/check_registry_drift.py:473-485 | a commit between the last that touched a component and the ref has the component as the ref has it |
| `RegistryDrift.ParseIsExact` | scripts/check_registry_drift.py:178-180 | a name is split if and only if it is a tag, a hyphen and forty hexadecimal digits |
| `RegistryDrift.ShaExactly` | scripts/check_registry_drift.py:178-180 | a commit name is forty lower-case hexadecimal digits |
| `RegistryDrift.OccurrencesExactly` | scripts/check_registry_drift.py:416-419 | how many entries carry a tag |
| `RegistryDrift.PublishedExactly` | scripts/check_registry_drift.py:398-452 | a commit may stand behind a moving tag if and only if an immutable name of it carries a digest in force: that of the distribution, or without one any listed under the tag |
| `RegistryDrift.Listed` | scripts/check_registry_drift.py:416-419 | the distinct digests listed under a tag in the order in which they first appear, and how many entries carry its name |
| `Texts.FirstsInOrder` | scripts/check_registry_drift.py:416-419 | what is kept of a listing, each value where it first stands, starts with what is kept of any beginning of it |
| `Texts.FirstsOnce` | scripts/check_registry_drift.py:416-419 | and holds the values of the listing, each once |
| `RegistryDrift.Collect` | scripts/check_registry_drift.py:434-452 | each commit named with a digest in force, once, in the order in which they are first named |
| `RegistryDrift.ReadPublished` | scripts/check_registry_drift.py:390-470 | the commits that may stand behind a moving tag in their order, the digests in force and the reason when there are none |
| `RegistryDrift.OrderDoesNotMatter` | scripts/check_registry_drift.py:398-452 | the commits found do not depend on the order of the listing or on repetitions |
| `RegistryDrift.MovingEntriesIgnored` | scripts/check_registry_drift.py:412-424 | with a digest from the distribution, what the listing says of the moving tag does not matter |
| `RegistryAudit.AuditOne` | scripts/check_registry_drift.py:513-558 | a complaint exactly when the component is asked about and no published commit contains its last change and comes from the ref; the complaint is that of the first candidate and true of it |
| `RegistryAudit.ServiceExactly` | scripts/check_registry_drift.py:390-470 | without an answer for a tag the listing alone decides what may be in service; with one, its digest and what it resolved count too |
| `RegistryAudit.DivergenceTells` | scripts/check_registry_drift.py:473-485 | a complaint names what is wrong with a commit |
| `RegistryAudit.DoubledExactly` | scripts/check_registry_drift.py:545-558 | the note is for two different commits in service |
| `RegistryAudit.Audit` | scripts/check_registry_drift.py:488-559 | the problems name exactly the components left behind, in order, and the notes those built twice |
| `RegistryAudit.NotBehindIsSameCode` | scripts/check_registry_drift.py:473-485 | without a complaint some commit that may be in service has the files of the component as the ref has them |
| `RegistryAudit.CleanIsSameCode` | scripts/check_registry_drift.py:488-559 | a clean audit says so of every component asked about |
| `RegistryAudit.AlwaysAskedAbout` | scripts/check_registry_drift.py:513-521 | a component with files is passed over only as an operator surface when images per app are off |
| `RegistryAudit.OrderIgnored` | scripts/check_registry_drift.py:398-452 | the verdict does not depend on the order of the listing |
| `RegistryAudit.StaleIndexIgnored` | scripts/check_registry_drift.py:412-424 | nor on a stale entry of the moving tag |
| `RegistryAudit.AskOnce` | scripts/check_registry_drift.py:655-659 | one reading is clean, drift or unreadable |
| `RegistryAudit.Confirm` | scripts/check_registry_drift.py:653-693 | drift is affirmed exactly when every reading showed it; a clean or unreadable reading ends the loop with its own exit code |
| `RegistryAudit.ReadingsExactly` | scripts/check_registry_drift.py:653-693 | offline one reading, online one more than was asked for |

## Left out

- Django itself: tables are maps, the transaction is a snapshot that is put back, signals are not modelled.
- Column types of the database: a written cell is read back as the JSON value that was written.
- The foreign key from a channel to its shop: there is at most one shop.
- The descriptor hash: a changed hash is modelled as a changed descriptor.
- `customer_groups` and the writing of templates: templates are modelled in their keyed form, merged and listed again.
- InstanceConvergence.ApplyConverges: overrides and parameters are mappings, and rules and personas have only fields the projection emits; of a channel whose overrides are another empty value what is stored depends on the row before.
- The export allowlist, the secret patterns and the sections without an owner: refused before anything is planned.
- The report of `sync_personas`: only the groups afterwards.
- A string given where a rule's `channels` should be a list: the model refuses it, the program reads its characters.
- Floating-point infinities and NaN, and rounding: numbers with a fraction are reals.
- KeyedTemplates.RoundTrip: sort orders are whole numbers; other values that Python can compare are not modelled.
- TemplateMerge.MergedIsListed: a sort order, where there is one, is a whole number.
- The default arguments of lambdas, which the walk does not yield either: an id stands for a whole expression.
- Parsing Python, resolving imports and naming heuristics: the dependency graph and the statements are given.
- InstanceLaws.AcceptedExactly: of white space only the ASCII characters count as blank in an actor's name.
- InstanceStore.InstanceStore.PlanApply: the templates and customer groups of a plan are not modelled.
- InstanceStore.InstanceStore.SyncPersonas: the report of what was created, granted and revoked is not modelled.
- InstanceStore.InstanceStore.WriteAll: templates and customer groups are not written.
- InstanceStore.InstanceStore.CarryOut: the report holds the planned changes, not the other fields, and templates and customer groups are not written.
- InstanceStore.InstanceStore.ApplyToDatabase: the export allowlist, the sections without an owner, templates and customer groups are not modelled.
- The checks of the gate that are not about ownership: questions, touchpoints, tests, decision shapes, budgets.
- Ownership.CheckSource: responsibilities, touchpoints and the responsibility that an empty file must have, which depends on its path, are not modelled.
- Ownership.CheckInventory: of an entry only what `CheckSource` checks.
- Ownership.ClaimUnit: the schema, touchpoints and observations of a unit are not checked.
- Ownership.ClaimUnits: what `ClaimUnit` leaves out is not checked.
- Ownership.CheckClaims: the checks between the claims and the coverage that are not about ownership are not modelled.
- Ownership.Validate: only the ownership checks of the gate decide the result.
- Fetching pages, HTML tokenizing, and the frame, date and checks of the archived file.
- The decoding of obfuscated addresses, and its failure on text that is not hexadecimal: a function given to the extractor.
- Vendor-specific statements of the purge, its printed portrait of the first day and the selectors other than the customer accounts.
- The signals sent while rows are deleted, which may write rows of their own.
- Registry and git calls, waiting and printing: answers, ancestry and trees are given.
- Ancestry.ContainedIsSame: histories with merges are not modelled; the published branch is linear.
- RegistryDrift.ParseIsExact: a tag name ending in a line break, which the pattern would accept, is not modelled.
- SurfaceVersions.Audit: digits other than 0 to 9 are not read as numbers.
- The reading of manifests and lock files, the refusal of an exception without a reason, and the printed reports.
