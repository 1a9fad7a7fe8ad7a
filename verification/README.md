# wfe, verified

wfe is a workflow engine: YAML files are loaded, validated and compiled into step graphs; hosts run them, guarded by
distributed locks, and deliver events to waiting workflows; stores keep instances, events and scheduled commands in
SQLite or PostgreSQL. This project models the parts of wfe whose correctness is not visible in any single function and
proves, for every input, every run or every reachable state, what they are for.

`dafny verify dfyconfig.toml` checks everything. Sequential code that updates things in place is a class or a method
with loops, proved against a specification; code that only computes is a function with lemmas about it; code whose
calls interleave with other hosts is a step system in which every request to a server is one step.

| file | part of wfe |
|---|---|
| `SchemaTypes.dfy`, `SchemaTexts.dfy` | the type language of workflow inputs and outputs |
| `Yaml.dfy`, `YamlTree.dfy`, `Layout.dfy`, `Compiler.dfy`, `CompiledGraph.dfy`, `CompiledSteps.dfy`, `CompiledNames.dfy`, `StepKeys.dfy` | the workflow compiler and the graphs it emits |
| `CycleDetection.dfy`, `Validation.dfy` | validation of workflows and of batches of workflows |
| `Includes.dfy`, `Pipeline.dfy` | the include loader, and the whole way from files to compiled workflows |
| `SqlRewrite.dfy`, `SqlTexts.dfy`, `PostgresOptions.dfy`, `Migrations.dfy` | PostgreSQL table prefixes and the migration runner |
| `NatsLock.dfy`, `NatsStoredOwner.dfy`, `NatsHeartbeat.dfy`, `NatsHeartbeatBound.dfy`, `ValkeyLock.dfy` | the distributed locks |
| `EventDelivery.dfy`, `EventHost.dfy`, `EventReuse.dfy` | event publication and delivery in the host |
| `SqliteStore.dfy`, `ScheduledCommands.dfy` | the SQLite store and its command queue |

## What the code does that a reader might not expect

- The definition's step list is not in id order: hooks and children are pushed before their step. The host starts at
  step 0 but names the first pointer after the first step of the list, which is step 0 only when nothing is pushed
  before it (`CompiledGraph.FirstListedIsStepZero`).
- An `ensure` hook of a step that also has `on_success` is compiled but can never be reached
  (`CompiledGraph.ReachableExactly`). Children of `parallel` are wired one after another like top-level steps.
- The hooks of a `parallel` step, and the hooks or blocks of a hook, pass validation and are never compiled
  (`CompiledNames.DroppedExactly`, `CompiledNames.HookIsDropped`). Every validated name gets a step exactly when there
  are none (`CompiledNames.NamesKeptExactly`).
- Two files that lead to the same third file are rejected as circular, at any depth (`Includes.DiamondIsRejected`).
- A NATS lock's stored owner may be wrong: a heartbeat put from an old snapshot overwrites the next holder's id
  (`NatsLock.StaleBeatOverwritesOwner`). This is possible exactly when another instance still lists the resource in its
  held set or its snapshot (`NatsStoredOwner.StoredOwnerExactly`). The holder's release then leaves the key until its
  TTL (`NatsStoredOwner.MisreadAbandonsKey`). Mutual exclusion rests on the key's existence alone.
- A subscription that arrives after the listing of the pass that marks an event processed never gets that event
  (`EventDelivery.LateSubscriptionMisses`, `EventReuse.LateSubscription`).
- If queueing the workflow or terminating the subscription fails, the subscription has been used and can be used again,
  unless the release of the lock fails too; the event is neither processed nor queued (`EventReuse.FailedCallReopens`,
  `EventReuse.UsedAgainExactly`, `EventReuse.UsedTwice`).
- A load from SQLite is two SELECTs, so without the workflow's lock it can mix an old row with new pointers: exactly
  when calls that write this workflow can come in between (`SqliteStore.TornExactly`).
- Persisting an unknown workflow without pointers to SQLite succeeds and stores nothing
  (`SqliteStore.Store.PersistWorkflow`).
- A command scheduled again while a processor has handled the equal row and not yet deleted it is lost; this is the
  only way to lose one (`ScheduledCommands.LostExactly`, `ScheduledCommands.SecondRequestIsLost`).

## Model

| member | source | states |
|---|---|---|
| `SchemaTypes.ParsePrint` | wfe-yaml/src/types.rs:25-95 | parsing the printed form of any type gives the type back |
| `SchemaTypes.PrintParse` | wfe-yaml/src/types.rs:25-95 | whatever text parses, the printed result is that text with all whitespace removed |
| `SchemaTypes.SameTypeIffSameLetters` | wfe-yaml/src/types.rs:48-95 | two accepted texts denote the same type if and only if they agree up to whitespace |
| `SchemaTypes.StripParses` | wfe-yaml/src/types.rs:48-95 | an accepted text without its whitespace is accepted and denotes the same type |
| `SchemaTexts.AcceptedExactly` | wfe-yaml/src/types.rs:48-95 | a text is accepted as a type if and only if it is made of that type's words, with whitespace only around the whole and around inner types |
| `SchemaTexts.Keywords` | wfe-yaml/src/types.rs:25-95 | the five keywords denote their five types |
| `SchemaTexts.Constructions` | wfe-yaml/src/types.rs:48-95 | `list<...>`, `map<...>` and `...?` around any accepted text denote the list, map and optional of its type |
| `SchemaTexts.WhitespaceAround` | wfe-yaml/src/types.rs:48-52 | Unicode whitespace around a text changes nothing |
| `SqlRewrite.SubstituteIdentifiers` | wfe-postgres/src/lib.rs:566-622 | the index loop computes exactly the token-level substitution: lex, prefix the listed identifiers, print |
| `SqlRewrite.RewriteOne` | wfe-postgres/src/lib.rs:570-620 | one turn of the loop consumes exactly the next token and appends its rewritten text |
| `SqlRewrite.CopyLiteral` | wfe-postgres/src/lib.rs:572-587 | a string literal is copied whole up to its closing quote, doubled quotes included |
| `SqlRewrite.CopyLineComment` | wfe-postgres/src/lib.rs:588-592 | a line comment is copied up to, and without, its newline |
| `SqlRewrite.CopyBlockComment` | wfe-postgres/src/lib.rs:593-605 | a block comment is copied with its closing marker, or to the end |
| `SqlRewrite.RenderLex` | wfe-postgres/src/lib.rs:566-622 | tokens cover the text: printing the tokens of any text gives the text |
| `SqlRewrite.LexCommutes` | wfe-postgres/src/lib.rs:566-622 | for every text and valid prefix, lexing the output gives the input's tokens with exactly the listed identifiers prefixed |
| `SqlRewrite.EmptyPrefixIsIdentity` | wfe-postgres/src/lib.rs:566-622 | an empty prefix changes nothing |
| `SqlRewrite.SecondPassChangesNothing` | wfe-postgres/src/lib.rs:566-622 | if no listed name is a listed name with something in front, a second pass with the same prefix changes nothing |
| `SqlRewrite.PrefixRecoverable` | wfe-postgres/src/lib.rs:566-622 | the prefix can be read off any rewritten text that mentions a listed name |
| `SqlRewrite.PrefixShowsExactlyInMentions` | wfe-postgres/src/lib.rs:566-622 | two prefixes give the same text if and only if the text mentions no listed name |
| `SqlTexts.LineCommentKept` | wfe-postgres/src/lib.rs:588-592 | a line comment up to its newline, or the end, stays, and the rewriting goes on behind it |
| `SqlTexts.BlockCommentKept` | wfe-postgres/src/lib.rs:593-605 | a block comment up to its first closing marker, or the end, stays, and the rewriting goes on behind it |
| `SqlTexts.LiteralKept` | wfe-postgres/src/lib.rs:572-587 | a literal of any text with its quotes doubled stays, and the rewriting goes on behind it |
| `SqlTexts.IdentifierRewritten` | wfe-postgres/src/lib.rs:606-616 | a whole word of letters, digits and underscores comes out prefixed if and only if it is listed |
| `SqlTexts.OtherKept` | wfe-postgres/src/lib.rs:617-620 | any other character stays |
| `SqlTexts.EveryTextCovered` | wfe-postgres/src/lib.rs:566-622 | every text starts with one of these pieces, so together they determine the output of every text |
| `PostgresOptions.ValidateExact` | wfe-postgres/src/lib.rs:90-152 | options are accepted if and only if the schema and a non-empty prefix are words that do not start with a digit, and the schema and every prefixed name have at most 63 characters |
| `PostgresOptions.ListedNamesSuffixFree` | wfe-postgres/src/lib.rs:28-46 | the shipped list of names meets the condition for a harmless second pass |
| `PostgresOptions.RewritingIsIdempotent` | wfe-postgres/src/lib.rs:28-152 | with the shipped list, for every non-empty prefix that validation can accept and every text, prefixing twice is prefixing once |
| `Migrations.Database.RunMigrations` | wfe-postgres/src/lib.rs:456-556 | one run of the runner changes tables and commits exactly as the specification `Run` says, for every fate of every transaction |
| `Migrations.RunKeepsConsistent` | wfe-postgres/src/lib.rs:473-556 | every run, however it ends, keeps the recorded versions equal to the committed ones, extends what was committed, commits only under its own prefix, and has applied everything if it reports success |
| `Migrations.ConsistentMeans` | wfe-postgres/src/lib.rs:473-556 | recorded versions are those that committed, each once, and they are an initial part of the up-migrations |
| `Migrations.AgreesExactly` | wfe-postgres/src/lib.rs:505-530 | with a collision-free checksum, a recorded migration is accepted if and only if its prefix is the current one or it mentions no listed name |
| `Migrations.OtherPrefixIsRefused` | wfe-postgres/src/lib.rs:505-530 | a run under another prefix fails and applies nothing once a recorded migration mentions a listed name |
| `Migrations.UndisturbedRunFinishesExactly` | wfe-postgres/src/lib.rs:473-556 | a run whose transactions all commit reports success if and only if every recorded mention was applied under its prefix |
| `Migrations.RunStopsExactly` | wfe-postgres/src/lib.rs:513-556 | a run on agreeing records applies the next migrations in order up to the first whose transaction does not commit, and reports how that one ended |
| `Migrations.DirtyExactly` | wfe-postgres/src/lib.rs:488-503 | a run reports a dirty store, and changes nothing, if and only if some recorded migration did not succeed |
| `Migrations.UpsConcat` | wfe-postgres/src/lib.rs:513-516 | down-migrations are left out and the others keep their order |
| `Migrations.AnyRunsLeaveOneConsistentStore` | wfe-postgres/src/lib.rs:456-556 | after any sequence of runs, failures and crashes under any prefixes, the store is consistent and one prefix accounts for every mention |
| `CycleDetection.DetectCycles` | wfe-yaml/src/validation.rs:105-167 | success if and only if the references among known ids have no cycle; a reported path is a real cycle |
| `CycleDetection.Search.Dfs` | wfe-yaml/src/validation.rs:118-156 | a search leaves the path as it was and its node black, with fewer white nodes, or reports a real cycle; the path holds exactly the gray nodes throughout |
| `CycleDetection.Search.Visit` | wfe-yaml/src/validation.rs:128-150 | a gray neighbour closes a real cycle (it is on the path, so the position lookup is safe); otherwise the neighbour ends black |
| `CycleDetection.Search.Detect` | wfe-yaml/src/validation.rs:158-167 | the outer loop settles every known id or reports a real cycle |
| `CycleDetection.SettledIsAcyclic` | wfe-yaml/src/validation.rs:105-167 | a graph whose known nodes all finish has no cycle |
| `CycleDetection.ChainsAreShort` | wfe-yaml/src/validation.rs:105-167 | without cycles no chain of references is longer than the number of known ids |
| `Compiler.Definition.CompileSteps` | wfe-yaml/src/compiler.rs:82-252 | fails with the first failure in compilation order, otherwise appends exactly the intended layout of the block, with every edge in place, and leaves all earlier steps as they were |
| `Compiler.Definition.PushAll` | wfe-yaml/src/compiler.rs:88-218 | the first loop appends the unwired layout and returns the main ids |
| `Compiler.Definition.WireAll` | wfe-yaml/src/compiler.rs:220-249 | the rewiring loop, searching by id, turns the unwired layout into the wired one and touches nothing before it |
| `Compiler.Definition.CompileContainer` | wfe-yaml/src/compiler.rs:91-115 | a `parallel` step takes its id first, its children follow in the next ids, and it is pushed after them |
| `Compiler.Definition.CompileRegular` | wfe-yaml/src/compiler.rs:116-217 | a step takes its id first, pushes its hooks in order and then itself |
| `Compiler.Definition.PushHooks` | wfe-yaml/src/compiler.rs:141-209 | hook ids, compensation and outcome edges, including that `ensure` gets no edge beside `on_success` |
| `Compiler.WireBlock` | wfe-yaml/src/compiler.rs:220-249 | one turn of the rewiring loop adds exactly the edge from a step's last stop to the next step |
| `CompiledGraph.CompiledIsOrdered` | wfe-yaml/src/compiler.rs:82-252 | ids are each used exactly once without a gap, every step has at most one outcome, and every outcome, child and compensation target exists and is larger than its source |
| `CompiledGraph.RunOrder` | wfe-yaml/src/compiler.rs:82-252 | from the first id the outcome edges visit the YAML steps in order, each non-`parallel` step followed by its success hook or else its ensure hook, and then stop |
| `CompiledGraph.RunIsForced` | wfe-yaml/src/compiler.rs:220-249 | any walk along outcome edges from the start is an initial part of that run |
| `CompiledGraph.RunOrderEverywhere` | wfe-yaml/src/compiler.rs:82-252 | run order holds for every `parallel` block at every nesting level |
| `CompiledGraph.EveryStepRepresented` | wfe-yaml/src/compiler.rs:88-217 | at every nesting level each step of a block is compiled at its id, a `parallel` step with its block's main steps as children in order, a non-`parallel` step with its own key and configuration, its hooks at their ids with theirs, and its failure hook as compensation |
| `CompiledSteps.EveryStepTranslated` | wfe-yaml/src/compiler.rs:88-217 | at every nesting level of a block that compiles, each step has its own condition and error behaviour, translated, its own key and configuration, and the tags of its edges; its hooks are built from its hooks, in order, and carry nothing else |
| `CompiledSteps.CompilesExactly` | wfe-yaml/src/compiler.rs:82-252 | a block compiles if and only if everything in every step at every level translates, and fails with an error that occurs there |
| `CompiledSteps.StepFailureOrder` | wfe-yaml/src/compiler.rs:116-209 | of a step without a block, the failure reported is the first of build, error behaviour, condition, and the hooks for failure, success and ensure |
| `CompiledSteps.BlockFailureOrder` | wfe-yaml/src/compiler.rs:88-115 | of a `parallel` step: error behaviour, block, condition; of several steps: the first that fails |
| `CompiledNames.CompiledNamesExactly` | wfe-yaml/src/compiler.rs:82-252 | a name has a compiled step if and only if it is that of a step of some block or of a direct hook of such a step that is not `parallel` |
| `CompiledNames.NamesKeptExactly` | wfe-yaml/src/validation.rs:343-357 | the compiled names of a validated workflow are among the validated ones, and are all of them if and only if no `parallel` step has hooks and no hook has hooks or steps of its own |
| `CompiledNames.NamesSplit` | wfe-yaml/src/compiler.rs:82-252 | the validated names, counted with their occurrences, are the emitted ones and the dropped ones: the hooks of `parallel` steps and what other steps' hooks contain |
| `CompiledNames.DroppedExactly` | wfe-yaml/src/compiler.rs:91-217 | a name of a validated workflow has a compiled step if and only if it is not among the dropped ones |
| `CompiledNames.HookIsDropped` | wfe-yaml/src/compiler.rs:91-217 | at every nesting level of a validated workflow, no name inside a hook of a `parallel` step, and no name below a hook of another step, has a compiled step |
| `CompiledGraph.ReachableExactly` | wfe-yaml/src/compiler.rs:91-249 | from step 0 every step is reached, except precisely the ensure hooks of steps that also have a success hook |
| `CompiledGraph.FirstListedIsStepZero` | wfe/src/host.rs:428-434 | the first listed step is step 0 if and only if the first YAML step has no hooks and no children |
| `StepKeys.KeyTellsName` | wfe-yaml/src/compiler.rs:402-561 | a factory key determines its step's name, whatever the name contains |
| `StepKeys.FactoryKeys` | wfe-yaml/src/compiler.rs:141-214 | the factory list holds, in push order, a key for each step that gets a factory |
| `StepKeys.FactoriesMatchSteps` | wfe/src/host.rs:729-738 | the factory list is exactly the types of the non-container steps in push order, so every step type is registered by it or is the sequence primitive |
| `StepKeys.CanExecuteWorkflow` | wfe/src/host.rs:729-738 | the host's loop accepts a definition if and only if every step type is registered |
| `StepKeys.WorkflowStepBuilt` | wfe-yaml/src/compiler.rs:519-556 | a sub-workflow step is built if and only if it names its workflow, with version 1 unless it says another, its outputs as output keys, and its key |
| `StepKeys.ExecutorStepBuilt` | wfe-yaml/src/compiler.rs:402-518 | every other known type is built by its own executor under a key of that executor's word and the step's name; no type means shell |
| `StepKeys.OtherTypeRefused` | wfe-yaml/src/compiler.rs:557-561 | any other type is refused |
| `StepKeys.BuiltChild` | wfe-yaml/src/compiler.rs:519-556 | a built step starts a workflow only if its YAML step has type `workflow` and names that workflow |
| `Validation.ValidateSteps` | wfe-yaml/src/validation.rs:169-360 | accepts if and only if all names, hooks and nested steps included, are new and distinct and every step is well shaped; returns exactly the enlarged name set |
| `Validation.NamesExactly` | wfe-yaml/src/validation.rs:169-181 | the names compared are those of all steps at all depths, one for each step |
| `Validation.ShapesExactly` | wfe-yaml/src/validation.rs:169-360 | every step at every depth, blocks and hooks included, is checked, and nothing else |
| `Validation.ShapedMeansBuildable` | wfe-yaml/src/validation.rs:183-342 | the checks of a step agree with the compiler: a sub-workflow step passes exactly when it can be built, an error behaviour exactly when it can be translated |
| `Validation.SpecOkExactly` | wfe-yaml/src/validation.rs:8-34 | so does the check of the workflow's own error behaviour |
| `Validation.Validate` | wfe-yaml/src/validation.rs:8-34 | accepts a workflow if and only if it has steps, its names are distinct, and its shapes, error behaviour and conditions pass |
| `Validation.ValidatedFactoriesDistinct` | wfe-yaml/src/validation.rs:169-181 | the factory keys of a validated workflow are pairwise distinct |
| `Validation.CollectWorkflowRefs` | wfe-yaml/src/validation.rs:81-102 | adds exactly the referenced ids to the set |
| `Validation.RefsExactly` | wfe-yaml/src/validation.rs:81-102 | an id is referenced if and only if some `type: workflow` step, in a block or a hook at any depth, names it |
| `Validation.StartsCollected` | wfe-yaml/src/compiler.rs:519-556 | every workflow that a compiled step starts is among the collected references |
| `Validation.ValidateMulti` | wfe-yaml/src/validation.rs:37-78 | accepts a batch if and only if each workflow passes, ids are distinct and no workflows of the batch refer to one another in a circle by steps at any depth |
| `Validation.CycleMeansCircular` | wfe-yaml/src/validation.rs:62-78 | the graph that is searched has a cycle if and only if workflows of the batch refer to one another in a circle |
| `Validation.InvocationIsEdge` | wfe-yaml/src/validation.rs:62-102 | each invocation between compiled workflows of a batch is an edge of the checked graph |
| `Validation.NestingIsBounded` | wfe-yaml/src/validation.rs:37-102 | in an accepted batch no chain of sub-workflow invocations is longer than the batch |
| `Includes.Loader.LoadRecursive` | wfe-yaml/src/lib.rs:201-253 | terminates on every file set, cyclic ones included; succeeds if and only if the include tree exists and meets no file twice, and then adds its files in preorder |
| `Includes.LoadWithIncludes` | wfe-yaml/src/lib.rs:156-189 | succeeds if and only if the main file has one of `workflow` and a non-empty `workflows` and no file is reached twice; the result has exactly the main file's specs and those of the first file in preorder to define an id; without includes it is the file's own list |
| `Includes.IncluderWins` | wfe-yaml/src/lib.rs:233-250 | a file's specs win over those of the files it includes |
| `Includes.EarlierIncludeWins` | wfe-yaml/src/lib.rs:243-250 | an earlier include wins over a later one |
| `Includes.MergedIds` | wfe-yaml/src/lib.rs:233-241 | the ids of the result are exactly those defined by the main or an included file |
| `Includes.MergedExactly` | wfe-yaml/src/lib.rs:233-241 | a spec is in the result if and only if the main file has it, or its file is the first in preorder to define its id and the main file does not |
| `Includes.DiamondIsRejected` | wfe-yaml/src/lib.rs:215-220 | when every include resolves and nothing is circular, loading is refused if and only if two includes of one file, at any depth, reach the same file, or a file visited before is reached |
| `Pipeline.Compile` | wfe-yaml/src/compiler.rs:52-80 | succeeds if and only if the workflow's error behaviour and everything in its steps translate; the workflow's error behaviour fails first; every step then carries what its YAML step says, at its place |
| `Pipeline.CompiledIsSound` | wfe-yaml/src/compiler.rs:52-80 | a validated workflow that compiles is closed, ordered, unambiguous to register, and runs its steps in order from step 0 |
| `Pipeline.BatchNestingBounded` | wfe-yaml/src/lib.rs:191-196 | the compiled workflows of an accepted batch start one another only to a depth bounded by the batch |
| `Pipeline.LoadWorkflowWithIncludes` | wfe-yaml/src/lib.rs:156-199 | end to end: which inputs fail in loading, in validation or in compilation, and that a success has all the guarantees above |
| `NatsLock.StepKeepsSafe` | wfe-nats/src/lock.rs:87-163 | every step of every instance, stale heartbeat puts included, keeps mutual exclusion and the existence of owned keys |
| `NatsLock.MutualExclusionOverRuns` | wfe-nats/src/lock.rs:87-163 | over every run in which no owned key expires, two instances never both own a resource |
| `NatsLock.HeldExactly` | wfe-nats/src/lock.rs:87-163 | over every run, an instance's held set is exactly what it has acquired and not yet finished releasing |
| `NatsLock.StaleBeatOverwritesOwner` | wfe-nats/src/lock.rs:87-108 | a run without expiry in which the stored id is not the owner's |
| `NatsStoredOwner.StoredOwnerExactly` | wfe-nats/src/lock.rs:87-163 | from every safe state, the owner's id stays stored in every continuation if and only if it is stored now and no other instance lists the resource in its held set or its snapshot |
| `NatsStoredOwner.AcquireStoredExactly` | wfe-nats/src/lock.rs:117-135 | an acquire can never be overwritten if and only if nobody else lists the resource when it is made |
| `NatsStoredOwner.StepKeepsSecure` | wfe-nats/src/lock.rs:87-163 | every step that leaves the owner its lock keeps its id stored and the resource unlisted by others |
| `NatsStoredOwner.ListingOverwrites` | wfe-nats/src/lock.rs:87-108 | any other instance that lists the resource can finish its round, take a snapshot and overwrite the owner's id |
| `NatsStoredOwner.AcquireStaysStored` | wfe-nats/src/lock.rs:117-163 | over every run, an acquire made while nobody else lists the resource stays stored, and its release reads its own id |
| `NatsStoredOwner.MisreadAbandonsKey` | wfe-nats/src/lock.rs:138-163 | a release reads its own id if and only if it is stored; otherwise it leaves a key nobody owns |
| `NatsStoredOwner.AbandonedUntilExpiry` | wfe-nats/src/lock.rs:117-163 | such a key stays, and every acquire is refused, until the server drops it |
| `NatsLock.LiveExpiryBreaksExclusion` | wfe-nats/src/lock.rs:117-135 | if an owned key expires, another instance's next acquire breaks mutual exclusion |
| `NatsHeartbeat.CoveredIsFresh` | wfe-nats/src/lock.rs:56-106 | a key whose next put is due in time has not reached the end of its TTL |
| `NatsHeartbeat.TimedStepKeepsSafe` | wfe-nats/src/lock.rs:83-123 | every timed step keeps every owned key covered by a coming put |
| `NatsHeartbeat.HeldLocksNeverExpire` | wfe-nats/src/lock.rs:56-123 | if create-to-insert delay, two rounds of puts, oversleep and the interval stay under the TTL, no owned key ever expires and mutual exclusion holds |
| `NatsHeartbeat.ThirdSuffices` | wfe-nats/src/lock.rs:83-106 | that bound holds when the delay plus one round, oversleep counted, is under a third of the TTL |
| `NatsHeartbeatBound.BoundExactly` | wfe-nats/src/lock.rs:56-123 | the bound is exact: an owned key can reach the end of its TTL in some timed run if and only if the bound fails |
| `ValkeyLock.GrantedExactly` | wfe-valkey/src/lock.rs:45-62 | an acquire is granted if and only if it is for at least a second and every earlier hold window on the key has ended, after its whole seconds or by its holder's release |
| `ValkeyLock.WindowsAreDisjoint` | wfe-valkey/src/lock.rs:45-88 | hold windows on one key never overlap, over every timed history |
| `ValkeyLock.HolderIsKept` | wfe-valkey/src/lock.rs:64-88 | during its window the holder stays the stored owner, whoever else releases or asks |
| `ValkeyLock.GrantsAreAccounted` | wfe-valkey/src/lock.rs:45-88 | a granted entry is stored until its TTL passes or its holder releases |
| `ValkeyLock.EntriesComeFromGrants` | wfe-valkey/src/lock.rs:45-88 | a stored entry comes from a grant not released within its TTL |
| `EventDelivery.StepConserves` | wfe/src/host.rs:511-526 | every step keeps each stored event in exactly one place: processed, queued once, with its publisher, with the consumer, or dropped by a failed call |
| `EventDelivery.StepKeepsSafe` | wfe/src/host.rs:656-716 | every step of the consumer, publishers, subscribers and other lock holders keeps the whole invariant |
| `EventDelivery.SafeOverRuns` | wfe/src/host.rs:656-716 | over every run, failures included: conservation, no lost update, and a subscription is used twice only if a failed call left it open |
| `EventDelivery.ErrorFreeRuns` | wfe/src/host.rs:511-716 | without errors each stored event is in exactly one of four places and no subscription is used twice, lock contention included |
| `EventDelivery.SignalAll` | wfe/src/host.rs:681-689 | exactly the waiting pointers of the subscription's pointer id receive the data and become active; no pointer changes otherwise |
| `EventDelivery.WriteAppliesToStored` | wfe/src/host.rs:677-692 | what the consumer persists is the instance stored at that moment with its waiting pointers signalled and due at once, under the workflow's lock; no update is lost and no other instance changes |
| `EventDelivery.UsesMatch` | wfe-sqlite/src/lib.rs:812-833 | over every run, an event uses only subscriptions of its own name and key, made no later than the event |
| `EventDelivery.PassOf` | wfe/src/host.rs:665-716 | since a pass's listing, subscriptions were only added and only those listed were terminated |
| `EventDelivery.MarkedExactly` | wfe/src/host.rs:665-714 | when an event is marked processed, every subscription open at the pass's listing has received it, had its workflow queued and been terminated; those still open are exactly the ones created later |
| `EventDelivery.ProcessedIsFinal` | wfe/src/host.rs:712-714 | a processed event never comes back to the queue or the consumer |
| `EventDelivery.LateSubscriptionMisses` | wfe/src/host.rs:665-714 | over every run, a subscription not yet there at the listing of the pass that marks an event is never used by that event |
| `EventReuse.LateSubscription` | wfe/src/host.rs:665-714 | for every event and matching subscription, a run in which the subscription arrives after the listing and stays open beside the processed event |
| `EventReuse.UsableExactly` | wfe/src/host.rs:656-716 | from every safe state, a subscription can be used in some continuation if and only if it is open and the consumer has not leaked its workflow's lock |
| `EventReuse.UsedAgainExactly` | wfe/src/host.rs:656-716 | a subscription that has been used can be used again if and only if it is open, its workflow's lock is not leaked, and a call failed after its persist or its pass has yet to terminate it |
| `EventReuse.FailedCallReopens` | wfe/src/host.rs:694-708 | after a failed queueing of the workflow or a failed terminate, the subscription has been used, is open for every matching event and can be used again, and the event is dropped |
| `EventReuse.UsedTwice` | wfe/src/host.rs:656-716 | for every subscription, runs from the empty store in which one failing call at either stage is followed by a second use by another event |
| `EventReuse.LeakedLockPreventsUse` | wfe/src/host.rs:706-707 | if the release fails, no subscription of that workflow is ever used again |
| `EventHost.Host.ProcessEvent` | wfe/src/host.rs:656-716 | an undisturbed call is a path of the step system; it marks the event if and only if every open subscription's workflow is stored and unlocked, and then terminates exactly those; any other success queues the event again |
| `EventHost.Host.PublishEvent` | wfe/src/host.rs:511-526 | stores a new event and queues it at the back, as a path of the step system |
| `EventHost.Host.DeliverOne` | wfe/src/host.rs:671-709 | the treatment of one subscription: the instance signalled, the subscription terminated, the workflow queued, the lock as before; or, for a missing workflow, nothing but the error |
| `EventHost.Host.SignalPointers` | wfe/src/host.rs:681-689 | the pointer loop changes exactly the waiting pointers of that id |
| `EventHost.Host.GetSubscriptions` | wfe-sqlite/src/lib.rs:812-833 | exactly the open subscriptions of that name and key, subscribed no later than the event, each once |
| `EventHost.PathKeepsSafe` | wfe/src/host.rs:656-716 | every such path keeps the invariant of the step system |
| `SqliteStore.Store.PersistWorkflow` | wfe-sqlite/src/lib.rs:487-533 | all or nothing, as an update of a map from id to instance, with the exact condition for success; the creation time stays that of the row |
| `SqliteStore.Store.PersistWithSubscriptions` | wfe-sqlite/src/lib.rs:535-590 | instance and subscriptions are stored together or not at all, with the exact condition for success; the subscriptions with their own contents, the earlier ones unchanged |
| `SqliteStore.Store.CreateNewWorkflow` | wfe-sqlite/src/lib.rs:431-485 | adds exactly one instance to the map, or changes nothing, with the exact condition for success |
| `SqliteStore.Store.InsertPointers` | wfe-sqlite/src/lib.rs:676-754 | a list of pointers is accepted if and only if the workflow exists and the ids are new and distinct |
| `SqliteStore.Store.GetWorkflowInstance` | wfe-sqlite/src/lib.rs:607-627 | undisturbed, loads the row and exactly its pointers, in some order, or reports the id |
| `SqliteStore.TornExactly` | wfe-sqlite/src/lib.rs:607-627 | a load of a stored workflow can be none of the states it overlaps if and only if calls that write this workflow may come between its two SELECTs |
| `SqliteStore.PersistTears` | wfe-sqlite/src/lib.rs:487-627 | every persist that changes the row's name and the pointers, between the SELECTs, gives the old row with the new pointers |
| `SqliteStore.MixedLoadExactly` | wfe-sqlite/src/lib.rs:607-627 | a load is the state before or after the calls in between, whole, if and only if they left the row or left the pointers as they were |
| `SqliteStore.LockedLoadIsWhole` | wfe-sqlite/src/lib.rs:607-627 | when only other workflows are written in between, a load is exactly a load at once |
| `SqliteStore.OthersKept` | wfe-sqlite/src/lib.rs:431-533 | any sequence of creates and persists of other workflows leaves a workflow as it was |
| `SqliteStore.Store.GetByName` | wfe-sqlite/src/lib.rs:629-638 | a name leads to the only workflow that has it |
| `SqliteStore.ReplaceRefines` | wfe-sqlite/src/lib.rs:495-533 | update, delete and inserts on the two tables are one update of the map, and every other workflow keeps its row and pointers |
| `SqliteStore.TakenMeans` | wfe-sqlite/src/lib.rs:89-114 | a pointer id is refused after the delete if and only if another workflow has it |
| `SqliteStore.PersistThenLoad` | wfe-sqlite/src/lib.rs:487-627 | after a persist, the loads possible are exactly the persisted instance with its pointers permuted and the row's creation time |
| `ScheduledCommands.StepKeepsSafe` | wfe-sqlite/src/lib.rs:1049-1125 | under any interleaving, every row ever inserted is still there unchanged or was handled successfully with exactly its command |
| `ScheduledCommands.NeverDropped` | wfe-sqlite/src/lib.rs:161-171 | over every run, a row of the table is later still there unchanged, or the handler has succeeded on exactly its command; its id is never reused, so an old selection cannot delete a new row |
| `ScheduledCommands.GoneMeansServed` | wfe-sqlite/src/lib.rs:1115-1124 | a row that nobody is about to delete disappears only after a later successful handler call on it |
| `ScheduledCommands.ScheduleLeavesOne` | wfe-sqlite/src/lib.rs:1049-1068 | a request leaves exactly one row with its name and data; the table is unchanged if and only if such a row was there, and otherwise the row is new and nobody has handled it |
| `ScheduledCommands.LostExactly` | wfe-sqlite/src/lib.rs:1049-1125 | a request can be lost if and only if a processor has handled the equal row and not yet deleted it |
| `ScheduledCommands.SecondRequestIsLost` | wfe-sqlite/src/lib.rs:1049-1125 | a run in which a command asked for twice is handled once and nothing is left |
| `ScheduledCommands.Repository.ProcessCommands` | wfe-sqlite/src/lib.rs:1070-1125 | an undisturbed call is a path of the step system; it deletes only due rows on which the handler succeeds, all of them if and only if it never fails, and not the row on which it failed |
| `ScheduledCommands.Repository.ScheduleCommand` | wfe-sqlite/src/lib.rs:1049-1068 | one step of the step system: inserts under a fresh id unless a row with that name and data exists, and keeps the invariant |
| `ScheduledCommands.PathKeepsSafe` | wfe-sqlite/src/lib.rs:1049-1125 | every path keeps ids below the next one, names and data unique, and no row unhandled and gone |

## Left out

- The executor, its error handler, the primitives and the in-memory providers; what they do to instances appears only as
  arbitrary changes made under a workflow's lock.
- YAML parsing, merge keys and variable interpolation: files are given as parsed, with include paths already resolved.
- Executor configuration (`build_*_config`), conditions, error behaviours and declared outputs: functions that may fail,
  of which nothing else is assumed. Services are not compiled.
- Texts of error messages, and which of several errors validation reports first.
- JSON and date columns: conversion to text and back is taken to be lossless.
- Migrations.AnyRunsLeaveOneConsistentStore: assumes a collision-free checksum and distinct up-versions; the advisory
  lock is taken to serialise runs, and rows with a false success flag come from outside.
- PostgreSQL's case folding of unquoted names, its other repository methods, and its `process_commands`, whose range
  delete can remove a command inserted after the select.
- NatsLock.MutualExclusionOverRuns: one task per instance uses a resource at a time; requests that take effect after
  their sender has given up on them are only modelled for creates.
- NatsHeartbeat.HeldLocksNeverExpire: puts succeed, and the heartbeat of an instance is running before it acquires.
- NatsHeartbeatBound.BoundExactly: TTLs of at least three time units; below, the interval rounds to zero.
- ValkeyLock.WindowsAreDisjoint: windows are measured on the server's clock, in whole seconds as the provider sends them.
- EventDelivery.ErrorFreeRuns: one event consumer, as one host has; locks do not expire, the queue does not redeliver,
  and a failing call has no effect. `suspend_workflow`, `resume_workflow` and `terminate_workflow`, which write without
  the lock, are not part of the model; nor is the executor's own publication of completion events, which ignores errors.
- Lock and event classes: the locks and the interleaved event delivery are step systems over values, because their
  point is the interleaving; `EventHost` has the sequential code in its imperative form.
- gRPC, webhooks, authentication, log search, and the container, Kubernetes, Deno and Rust toolchain steps.
