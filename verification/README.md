# Verified core of the workspace platform's scripts and migrations

This project models, in Dafny, the parts of the repository whose correctness is hard
to see by reading one function: a static analysis over Python syntax trees, a data
migration that must preserve what tenants resolve to, trigger-driven tables, two
styles of locale tree merging, a WebSocket frame reader, a catalog surgery and a
baseline file. `dafny verify dfyconfig.toml` checks all of it.

| modules | what they are about |
|---|---|
| `RefreshSyntax`, `RefreshGuard` | the syntax trees, `ast.walk`, and the guard `check_refresh_select_execute.py`: as functions and as the methods that mutate the environment and append violations |
| `RefreshRuns` | what a scanned program does: a store of values, every branch, every loop count, every early exit, handlers, `with`, `match`, imports, nested functions and classes, over a library with any query methods outside the guard's table and with attributes of a query that may or may not be queries |
| `RefreshSoundness`, `RefreshExactness`, `RefreshRepair` | every stale `execute` of every run of a guarded program is reported, whatever the library; five families of programs the guard misses, one it reports falsely; the advised repair |
| `RefreshTable` | the report in literals: which methods count, which calls refresh, what a violation carries, in which order violations come |
| `RefreshFacts` | for every program the text decides which calls some run hands a stale select, and so for which programs the guard is sound and for which it raises no false alarm |
| `LocaleTrees`, `LocaleMerge`, `LocalePaths` | `_set_deep` and `deep_merge` on tree values: settling, re-runs, path form against tree form, associativity, and what stands at each key path afterwards |
| `LocaleHeap`, `LocaleDeepMerge` | the same operations on a heap of dict objects with addresses: the cursor loop, the in-place merge, the copying merge |
| `ProviderSplit`, `ProviderCommit`, `ProviderNames` | the provider split migration over two relational tables: what it preserves, exactly when it commits, and which rows of which names it adds |
| `WorkspaceAuthority`, `CronRevisions`, `DeadLetters`, `Receipts` | row writes, the triggers they fire, the CHECK and UNIQUE constraints, commit or abort, over all runs |
| `AuthorityTables`, `OutboxSteps` | each of these writes said of the tables alone |
| `FrameReader`, `FrameBytes` | the embedded probe that reads one frame (sections 5.2 and 5.5.1 of RFC 6455) from arbitrary chunks |
| `ForeignKeys`, `Baseline` | the foreign-key dropper and its guarded restore; the baseline writer and reader |

The imperative sources are classes and methods, each tied to a specification function;
the theorems are about those functions. The loops of the scripts and of the two
PL/pgSQL blocks are loops here, with their invariants. `ProviderTables.RunUpgrade`,
`Database.Apply` and `Outboxes.InsertRow` run single SQL statements, which stay the
functions that specify them: what those methods add is the order of the statements, the
early abort and the rollback.

What the code does where its own words differ:

- `_set_deep` (`scripts/i18n_add_wave_a_keys.py:61-66`) documents False for a value that
  already matched. It also returns False on a parent that is neither a dict nor null, and
  then it has written nothing: the exact statement is `ReturnsWhetherChanged`. It treats a
  null parent as missing, and overwrites a dict or null standing at the leaf silently.
- The refresh guard reports a nested call once for every compound statement around it,
  and never looks at decorators, bases, defaults and annotations of functions and
  classes. The model does the same.
- `deep_merge` is associative under a weaker condition than "no path is cut by a
  non-dict in the middle tree": a cut is harmless when the rightmost tree absorbs what
  the cut protects. `MergeAssociativeExactly` has the exact condition, `HarmlessCut` and
  `FatalCut` the two sides of it.

## Model

| member | source | states |
|---|---|---|
| RefreshSyntax.WalkFindsExactlyTheCalls | scripts/check_refresh_select_execute.py:111-118 | the queue walk yields a node if and only if it is a call somewhere in the tree: the `continue` prunes nothing |
| RefreshGuard.IterChildCalls | scripts/check_refresh_select_execute.py:111-118 | the queue loop yields the calls of the walk, in walk order |
| RefreshGuard.RecordAssignments | scripts/check_refresh_select_execute.py:121-130 | the loop over targets leaves the environment of the specification, in place |
| RefreshGuard.ExamineCall | scripts/check_refresh_select_execute.py:163-176 | appends one violation exactly when the call is an `execute` whose first argument classifies as a bare select |
| RefreshGuard.ExamineCalls | scripts/check_refresh_select_execute.py:162-176 | the violations of one statement's calls, appended in order, environment unchanged |
| RefreshGuard.ProcessStmt | scripts/check_refresh_select_execute.py:141-198 | one statement: scopes and nested bodies work on copies, the caller's environment changes only by the statement's own assignment |
| RefreshGuard.ProcessNested | scripts/check_refresh_select_execute.py:180-198 | nested bodies in the source's order, each from a copy of the same environment |
| RefreshGuard.ProcessBody | scripts/check_refresh_select_execute.py:133-198 | the violation list grows by exactly the body's report and the environment becomes the fold of its assignments |
| RefreshGuard.ScanModule | scripts/check_refresh_select_execute.py:201-212 | scanning a module returns its report from the empty environment |
| RefreshTable.ChainedReport | scripts/check_refresh_select_execute.py:32-108 | `x.execute(select(...).m(...))` is reported if and only if `m` is one of the twenty methods, spelled out, and not `execution_options` with `populate_existing=True`, whatever the other arguments |
| RefreshTable.BareReport | scripts/check_refresh_select_execute.py:80-83 | `x.execute(select(...))` is reported |
| RefreshTable.WrappedNotReported | scripts/check_refresh_select_execute.py:76-90 | wrapped in `refresh_select_statement(...)` or `y._refresh_statement(...)` it is not, in any environment |
| RefreshTable.HelperWraps | scripts/check_refresh_select_execute.py:76-90 | either helper turns a select or a wrapped one into a wrapped one and anything else into nothing |
| RefreshTable.ViolationsDescribeCalls | scripts/check_refresh_select_execute.py:162-176 | every violation has the line and the first argument of an `execute` call in the module, and each stale execute of a guarded module has a violation with its line and first argument |
| RefreshTable.WalkByLevels | scripts/check_refresh_select_execute.py:111-118 | the walk yields each call once for each place it stands in, level by level from left to right |
| RefreshTable.CompoundReport | scripts/check_refresh_select_execute.py:141-198 | a compound statement reports its own calls, then body, else, finally and handlers, or cases, each from the same environment; a function or class reports its body only |
| RefreshSoundness.ClassifyCovers | scripts/check_refresh_select_execute.py:67-108 | an expression that hangs on a tracked name, without a method outside the table that carries a stale select on, is classified `SELECT` if it can be a stale select in a run |
| RefreshSoundness.TrustedIsExact | scripts/check_refresh_select_execute.py:67-108 | for every library, the syntactic condition on an expression holds if and only if classification is right for every environment and store it is used with |
| RefreshSoundness.RecordCovers | scripts/check_refresh_select_execute.py:121-130 | after any run of a statement the recorded environment still covers the store, on the names that stay tracked |
| RefreshSoundness.BodySound | scripts/check_refresh_select_execute.py:133-198 | from any covered store and for any library, each stale `execute` of any run of a guarded statement list is in its report |
| RefreshSoundness.StmtSound | scripts/check_refresh_select_execute.py:141-198 | the same for one statement of any form, through loops, handlers, `finally`, `match` and scopes |
| RefreshSoundness.GuardIsSound | scripts/check_refresh_select_execute.py:67-212 | for every library, every module guarded for it and every run, whatever the branches, loop counts and exceptions, each `execute` on an unrefreshed select is reported |
| RefreshExactness.ExtendedIsGuarded | scripts/check_refresh_select_execute.py:133-198 | a query extended inside a branch and executed after it, the usual way to build one, is guarded for every library |
| RefreshExactness.StraightLineExact | scripts/check_refresh_select_execute.py:133-178 | in guarded straight-line code a violation is reported if and only if some run executes a stale select there, if an attribute of a query may be a query or if none is recorded or executed |
| RefreshFacts.OneNameDecides | scripts/check_refresh_select_execute.py:67-108 | the values an expression can have depend on the value of one name |
| RefreshFacts.TextDecides | scripts/check_refresh_select_execute.py:67-198 | for every program of any form and every library, some run hands a call a stale select if and only if the text has a path of facts, each a name with a value, from a plain name to one that makes its argument stale |
| RefreshFacts.GuardVerdict | scripts/check_refresh_select_execute.py:133-212 | so the programs for which the report misses no stale execute, and those for which every report has a run behind it, are told from the text, exactly |
| RefreshExactness.AttributeAlarm | scripts/check_refresh_select_execute.py:105-106 | a whole family of false alarms: an attribute of a select handed to `execute` is reported, and no run hands it a select if attributes of a query are plain values |
| RefreshExactness.BranchAssignmentEscapes | scripts/check_refresh_select_execute.py:178-198 | a whole family the guard misses: a name made stale inside a branch and executed after it |
| RefreshExactness.BareAnnotationHides | scripts/check_refresh_select_execute.py:127-128 | another missed family: an annotation without a value makes the guard forget the name |
| RefreshExactness.UnlistedMethodEscapes | scripts/check_refresh_select_execute.py:32-53 | a third missed family: a select chained with any query method other than the twenty, such as `with_for_update` |
| RefreshExactness.LoopCarriedEscapes | scripts/check_refresh_select_execute.py:178-198 | a fourth: a name made stale in one turn of a loop and executed in the next |
| RefreshExactness.HandlerEscapes | scripts/check_refresh_select_execute.py:180-198 | a fifth: a name bound in a `try` body and executed in its handler |
| RefreshRepair.RepairSilencesTheGuard | scripts/check_refresh_select_execute.py:162-176 | wrapping the first argument of every `execute` leaves nothing to report, for every program and environment, and unwrapping gives the program back |
| RefreshRepair.RepairedRunsAreFresh | scripts/check_refresh_select_execute.py:235-238 | no run of a repaired program, from any store, executes a stale select |
| RefreshRepair.StripUndoesRepair | scripts/check_refresh_select_execute.py:235-238 | the repair only adds wrappers: taking them off is its inverse on every tree |
| RefreshTable.RepairedCall | scripts/check_refresh_select_execute.py:235-238 | the repair of an `execute` call wraps its repaired first argument in `refresh_select_statement(...)` and keeps everything else |
| LocaleTrees.ReturnsWhetherChanged | scripts/i18n_add_wave_a_keys.py:61-93 | the returned flag is True if and only if the tree changed |
| LocaleTrees.SetSettles | scripts/i18n_add_wave_a_keys.py:67-93 | after a call the path holds the value, or a parent that is neither dict nor null blocks it and nothing was written; a further call changes nothing |
| LocaleTrees.SettledExactly | scripts/i18n_add_wave_a_keys.py:67-93 | a call changes nothing if and only if the path already holds the value or is blocked |
| LocaleTrees.SettledStays | scripts/i18n_add_wave_a_keys.py:67-93 | setting another path, even a prefix or an extension, never unsettles a settled one |
| LocalePaths.BlockedByPath | scripts/i18n_add_wave_a_keys.py:70-82 | an addition is skipped if and only if a value that is neither dict nor null stands at a proper prefix of its path |
| LocalePaths.SetByPath | scripts/i18n_add_wave_a_keys.py:61-93 | otherwise its path then holds the string, every proper prefix is a dict with its old keys and the next one, and every other path holds what it held |
| LocaleTrees.RerunIsNoop | scripts/i18n_add_wave_a_keys.py:96-117 | a second pass over distinct paths changes nothing and every call returns False |
| LocaleTrees.ChangedFlagIsExact | scripts/i18n_add_wave_a_keys.py:104-116 | the pass's `changed` flag is True if and only if the tree after the pass differs from the tree before |
| LocaleTrees.SplitIsInjective | scripts/i18n_add_wave_a_keys.py:67 | distinct dotted keys split into distinct paths, so dictionary keys are distinct paths |
| LocaleTrees.JoinSplitsExactly | scripts/i18n_add_wave_a_keys.py:67 | a key path survives being written as a dotted key if and only if none of its keys contains a dot |
| LocaleHeap.PyDicts.WalkToParent | scripts/i18n_add_wave_a_keys.py:67-82 | the cursor loop reaches the parent dict, creating what is missing, or stops with the final tree already in place |
| LocaleHeap.PyDicts.SetDeep | scripts/i18n_add_wave_a_keys.py:61-93 | the heap then shows the specified tree, only dicts of that tree were written, and the flag is the specified one |
| LocaleHeap.PyDicts.AddAllKeys | scripts/i18n_add_wave_a_keys.py:104-109 | the loop over the additions leaves the folded tree; `changed` if and only if it differs from the old one |
| LocaleMerge.LeavesRebuild | scripts/i18n_add_wave_a_keys.py:61-93 | setting a payload's leaves under their dotted keys, in any order, on an empty tree rebuilds the payload if and only if no key of it contains a dot |
| LocaleMerge.SetCommutes | scripts/i18n_add_wave_a_keys.py:61-93 | setting an unblocked leaf after a merge is merging after setting it in the source |
| LocaleMerge.PathFormIsTreeForm | scripts/i18n_add_wave_c1_keys.py:205-211 | folding `_set_deep` over the dotted leaf keys of a payload without dotted keys, in any order, equals `deep_merge` if and only if no leaf path is obstructed in the destination |
| LocaleMerge.KeyPathsAreTreeForm | scripts/i18n_add_wave_c1_keys.py:205-211 | the same for any payload on key paths, before they are written as dotted keys |
| LocaleMerge.DotFreeIsExact | scripts/i18n_add_wave_a_keys.py:67 | the payloads for which path form and tree form agree on every unobstructed destination are exactly those without a dot in a key |
| LocaleMerge.DottedKeyDiverges | scripts/i18n_add_wave_a_keys.py:67 | every payload of one dotted key is a counterexample on the empty tree |
| LocalePaths.MergeByPath | scripts/i18n_add_wave_c1_keys.py:205-211 | at every path a value of the source wins, a dict of the source adds its keys, and where the source has nothing the destination stays unless the source cuts the path off |
| LocaleMerge.MergeIsIdempotent | scripts/i18n_add_wave_c1_keys.py:205-211 | merging the same source twice is merging it once |
| LocaleMerge.AbsorbedIsExact | scripts/i18n_add_wave_c1_keys.py:205-211 | merging into a tree gives exactly the source if and only if the source absorbs the tree |
| LocaleMerge.MergeAssociativeExactly | scripts/i18n_add_wave_c1_keys.py:205-211 | the merge of three trees is associative if and only if they are aligned |
| LocaleMerge.HarmlessCut | scripts/i18n_add_wave_c1_keys.py:205-211 | a non-dict in the middle tree under dicts in both outer trees can leave associativity intact |
| LocaleMerge.FatalCut | scripts/i18n_add_wave_c1_keys.py:205-211 | and breaks it whenever the right tree does not absorb the left one there |
| LocaleDeepMerge.MergeKeyInPlace | scripts/i18n_add_wave_c1_keys.py:206-210 | one key of the in-place loop: recursion into two dicts, otherwise assignment, keeps the loop's invariant on the heap |
| LocaleDeepMerge.DeepMergeInPlace | scripts/i18n_add_wave_c1_keys.py:205-211 | on disjoint trees the destination object then shows the merged tree and only dicts of the destination were written; if the destination has the source already, shared or not, no dict is changed |
| LocaleDeepMerge.MergedContains | scripts/i18n_add_wave_c1_keys.py:205-211 | after a merge the destination has the source, so a second merge of the same source object, whose dicts it now shares, changes nothing on the heap |
| LocaleDeepMerge.MergeKeyCopy | scripts/i18n_add_wave_c4_keys.py:49-57 | one key of the copying loop fills the new dict and writes no older one |
| LocaleDeepMerge.DeepMergeCopy | scripts/i18n_add_wave_c4_keys.py:47-58 | the returned new dict shows the same merged tree, every older dict is unchanged, and what it reaches is new or an argument's |
| ProviderSplit.ProviderTables.RunUpgrade | alembic/versions/c1d2e3f4a5b6_add_llm_provider_operation_type.py:42-247 | the statements in order give the specified tables, or on a broken key or check leave both tables untouched |
| ProviderSplit.MappingPreservedExactly | alembic/versions/c1d2e3f4a5b6_add_llm_provider_operation_type.py:53-238 | a mapping resolves to the same model before and after a committed upgrade if and only if a condition on the rows before it holds |
| ProviderSplit.HolderForeseen | alembic/versions/c1d2e3f4a5b6_add_llm_provider_operation_type.py:102-171 | which row will bear a derived name, and so whether it stands for the source's model, is decided by the rows before the two INSERTs |
| ProviderCommit.CleanSplitPreservesMeaning | alembic/versions/c1d2e3f4a5b6_add_llm_provider_operation_type.py:42-238 | with distinct names of at most 245 characters and no derived name in use, the upgrade commits and every mapping to an `llm` provider or one of its own operation keeps its model |
| ProviderCommit.CleanUpgradeCommits | alembic/versions/c1d2e3f4a5b6_add_llm_provider_operation_type.py:42-247 | under the same conditions no unique key or check is broken on the way |
| ProviderCommit.UpgradeCommitsExactly | alembic/versions/c1d2e3f4a5b6_add_llm_provider_operation_type.py:53-247 | the upgrade commits if and only if, on the rows before it, the sources that still lack a derived row have distinct derived names, every classified operation is listed and no two mappings of a tenant and operation will point at one row |
| ProviderCommit.HoldForeseen | alembic/versions/c1d2e3f4a5b6_add_llm_provider_operation_type.py:102-186 | whether a row of a given name and operation is there after both INSERTs is decided by the rows before them |
| ProviderSplit.UpgradeIsIdempotent | alembic/versions/c1d2e3f4a5b6_add_llm_provider_operation_type.py:42-238 | running the data steps on their own result changes neither table, whatever ids are generated, with no condition on names |
| ProviderSplit.RowsAfterUpgrade | alembic/versions/c1d2e3f4a5b6_add_llm_provider_operation_type.py:53-238 | every row afterwards is single-purpose, and is an original row with its own operation, model and settings or a row of some `llm` row, named after it with " Embedding" or " Rerank" and cut at 255 characters, with that row's model and settings |
| ProviderSplit.OriginalRowsStay | alembic/versions/c1d2e3f4a5b6_add_llm_provider_operation_type.py:53-201 | no provider and no mapping is lost, no mapping is added |
| ProviderNames.AddedRow | alembic/versions/c1d2e3f4a5b6_add_llm_provider_operation_type.py:53-173 | every added row stands for a language-model provider with a nonempty model, under the literal name, which no row bore before |
| ProviderNames.SourceHasRow | alembic/versions/c1d2e3f4a5b6_add_llm_provider_operation_type.py:53-173 | every such provider finds a row of the literal name afterwards |
| ProviderNames.CleanRowsExactly | alembic/versions/c1d2e3f4a5b6_add_llm_provider_operation_type.py:53-173 | in the plain case a row of exactly that name, operation and model is added if and only if the provider is a language-model one with a nonempty model |
| ProviderSplit.OperationBySuffix | alembic/versions/c1d2e3f4a5b6_add_llm_provider_operation_type.py:42-51 | the `right(...)` comparisons classify exactly by the suffix of the provider type |
| ProviderSplit.ClearedModel | alembic/versions/c1d2e3f4a5b6_add_llm_provider_operation_type.py:203-238 | clearing keeps the model of the row's own operation and no other, and is idempotent |
| ProviderSplit.SplitTakesName | alembic/versions/c1d2e3f4a5b6_add_llm_provider_operation_type.py:53-173 | after the split the derived name of every source row is taken |
| ProviderSplit.FinalMapping | alembic/versions/c1d2e3f4a5b6_add_llm_provider_operation_type.py:175-201 | the two redirects in sequence act on each mapping as the one for its own operation |
| ProviderCommit.DerivedNamesDiffer | alembic/versions/c1d2e3f4a5b6_add_llm_provider_operation_type.py:57-110 | up to 245 characters the derived names are the name with " Embedding" or " Rerank", and equal only for the same name and operation |
| WorkspaceAuthority.BumpIsExact | alembic/versions/d4e9f0a1b2c3_add_workspace_collaboration_authority.py:216-249 | a bump raises the target's revision by one if the workspace exists, and no other |
| WorkspaceAuthority.WriteBumpsExactly | alembic/versions/d4e9f0a1b2c3_add_workspace_collaboration_authority.py:257-353 | every row write raises the old and the new owning workspace by exactly one, once if they coincide, and no other workspace |
| AuthorityTables.ChildWriteExactly | alembic/versions/d4e9f0a1b2c3_add_workspace_collaboration_authority.py:257-353 | a row of the thirteen tables is stored or removed, and exactly the live workspaces that the old or new row names rise by one |
| AuthorityTables.NodeWriteExactly | alembic/versions/d4e9f0a1b2c3_add_workspace_collaboration_authority.py:272-284 | a plan node is stored or removed, and exactly the live workspaces that the plan rows of its old and new plan name rise by one |
| AuthorityTables.RecordWriteExactly | alembic/versions/d4e9f0a1b2c3_add_workspace_collaboration_authority.py:285-324 | a tool record is stored or removed, and exactly the workspaces its old and new conversation is joined to by id, tenant, project and a session attempt rise by one |
| AuthorityTables.WorkspaceWriteExactly | alembic/versions/d4e9f0a1b2c3_add_workspace_collaboration_authority.py:265-271 | a workspace row is stored and its own revision rises by one |
| AuthorityTables.ConversationWriteExactly | alembic/versions/d4e9f0a1b2c3_add_workspace_collaboration_authority.py:354-390 | a conversation row is stored and no revision changes |
| AuthorityTables.WorkspaceDeleteExactly | alembic/versions/d4e9f0a1b2c3_add_workspace_collaboration_authority.py:354-390 | deleting a workspace removes its authority, child rows and plan nodes, unlinks its conversations, and leaves every other row and revision |
| AuthorityTables.ContentsByTable | alembic/versions/d4e9f0a1b2c3_add_workspace_collaboration_authority.py:21-35 | the contents a revision stamps are the workspace's row, the child rows that name it and the nodes whose plan row names it |
| WorkspaceAuthority.BackfillMirrors | alembic/versions/d4e9f0a1b2c3_add_workspace_collaboration_authority.py:180-202 | the backfill gives each workspace an authority of its tenant and project at revision 0 |
| AuthorityTables.BackfillExactly | alembic/versions/d4e9f0a1b2c3_add_workspace_collaboration_authority.py:180-202 | the backfill keeps the authorities there are and adds one at revision 0 for each workspace without |
| AuthorityTables.BumpExactly | alembic/versions/d4e9f0a1b2c3_add_workspace_collaboration_authority.py:226-249 | the upsert sets the workspace's tenant and project and revision 1 or one more, and no other authority |
| WorkspaceAuthority.StepMirrors | alembic/versions/d4e9f0a1b2c3_add_workspace_collaboration_authority.py:226-249 | every write keeps each authority's tenant and project equal to its workspace's |
| WorkspaceAuthority.RunMirrors | alembic/versions/d4e9f0a1b2c3_add_workspace_collaboration_authority.py:207-379 | so they are equal in every state of every run |
| WorkspaceAuthority.WrittenElsewhere | alembic/versions/d4e9f0a1b2c3_add_workspace_collaboration_authority.py:266-330 | a write whose old and new owner is another workspace leaves this one's rows as they were, including plan nodes reached through plans |
| WorkspaceAuthority.StepIsStamped | alembic/versions/d4e9f0a1b2c3_add_workspace_collaboration_authority.py:207-379 | a step never lowers a live workspace's revision, and an unchanged revision means unchanged contents |
| WorkspaceAuthority.RevisionIsFaithful | alembic/versions/d4e9f0a1b2c3_add_workspace_collaboration_authority.py:207-379 | over any run that keeps the workspace alive, revisions never decrease and equal revisions mean identical rows in every child table |
| WorkspaceAuthority.Database.BumpFor | alembic/versions/d4e9f0a1b2c3_add_workspace_collaboration_authority.py:216-249 | the upsert changes the authorities table only, as specified |
| WorkspaceAuthority.Database.AfterRow | alembic/versions/d4e9f0a1b2c3_add_workspace_collaboration_authority.py:331-348 | the trigger's choice of one or two bumps |
| WorkspaceAuthority.Database.Apply | alembic/versions/d4e9f0a1b2c3_add_workspace_collaboration_authority.py:257-390 | a row write followed by its trigger is one step of the transition system |
| DeadLetters.EnteringCommitsExactly | alembic/versions/a72d9c31e5bf_add_workspace_autonomy_judgment_claims.py:331-471 | exactly when an outbox row may enter `dead_letter`; then the row and its one attention change and nothing else: open, with the row's reason, the time, and the scope and root of a new one, of which a left-over one keeps its scope and, except for a dispatch, its root; otherwise the whole step leaves the state unchanged |
| DeadLetters.UnrootedDispatchNeverDies | alembic/versions/a72d9c31e5bf_add_workspace_autonomy_judgment_claims.py:300-307 | a dispatch whose task is not an execution task naming a goal root in its scope cannot be dead-lettered: the root-scope check aborts the step |
| DeadLetters.GoalRootFound | alembic/versions/a72d9c31e5bf_add_workspace_autonomy_judgment_claims.py:423-437 | the join finds a root if and only if such a root exists, and the one it finds is one |
| DeadLetters.StepKeepsSound | alembic/versions/a72d9c31e5bf_add_workspace_autonomy_judgment_claims.py:272-471 | every step keeps all row checks, unique columns, attention checks and references |
| DeadLetters.StepKeepsAttended | alembic/versions/a72d9c31e5bf_add_workspace_autonomy_judgment_claims.py:331-471 | every usual step keeps an attention for each dead-lettered row |
| DeadLetters.BackfillStarts | alembic/versions/a72d9c31e5bf_add_workspace_autonomy_judgment_claims.py:472-546 | a backfill that commits gives exactly the dead-lettered rows an open attention |
| DeadLetters.BackfillExactly | alembic/versions/a72d9c31e5bf_add_workspace_autonomy_judgment_claims.py:472-546 | it commits if and only if each dead-lettered row has a reason that is not blank and each such dispatch a goal root |
| DeadLetters.RunKeeps | alembic/versions/a72d9c31e5bf_add_workspace_autonomy_judgment_claims.py:272-546 | in every state of every usual run each dead-lettered row has its attention and all checks hold |
| DeadLetters.ClosedOnlyIfResolved | alembic/versions/a72d9c31e5bf_add_workspace_autonomy_judgment_claims.py:331-471 | the attention of a dead-lettered row is resolved only if a resolve step followed the row's latest entry into `dead_letter` |
| DeadLetters.AttentionIdsDiffer | alembic/versions/a72d9c31e5bf_add_workspace_autonomy_judgment_claims.py:341-443 | attention ids of different rows never collide across the three outboxes |
| DeadLetters.Outboxes.UpdateRow | alembic/versions/a72d9c31e5bf_add_workspace_autonomy_judgment_claims.py:331-471 | update, trigger upsert and checks in order are one step; a refused one restores both tables |
| DeadLetters.Outboxes.InsertRow | alembic/versions/7d15f4b8c9e3_add_workspace_task_dispatch_outbox.py:27-97 | an insert commits exactly when the row checks, the primary key, the table's unique column and the references hold |
| OutboxSteps.InsertExactly | alembic/versions/7d15f4b8c9e3_add_workspace_task_dispatch_outbox.py:27-97 | an insert commits exactly for a free id, a row in order, live references and a free tick, delivery request or workspace; it adds the row and changes nothing else |
| OutboxSteps.UpdateExactly | alembic/versions/7d15f4b8c9e3_add_workspace_task_dispatch_outbox.py:106-152 | a committed update replaces the row, keeps tasks and parents, and changes the attentions only at its key and only on an entry into `dead_letter` |
| OutboxSteps.PlainUpdateCommits | alembic/versions/7d15f4b8c9e3_add_workspace_task_dispatch_outbox.py:106-152 | an update that is no such entry commits exactly if the row is there, keeps its snapshot, is in order and refers to what is there |
| OutboxSteps.OtherWritesExactly | alembic/versions/a72d9c31e5bf_add_workspace_autonomy_judgment_claims.py:272-306 | a delete removes the row only; a resolve closes the attention with its time and actor and changes nothing else |
| OutboxSteps.ReachableRows | alembic/versions/7d15f4b8c9e3_add_workspace_task_dispatch_outbox.py:57-97 | in every reachable state attempts are within bounds, exactly the leased rows have owner and expiry, exactly the finished ones a finishing time, and the unique columns differ |
| OutboxSteps.ReachableAttentions | alembic/versions/a72d9c31e5bf_add_workspace_autonomy_judgment_claims.py:272-330 | in every reachable state an attention has a root of its scope unless it is a bootstrap's, a reason that is not blank, and is open or resolved by someone |
| OutboxSteps.EntryExplains | alembic/versions/a72d9c31e5bf_add_workspace_autonomy_judgment_claims.py:348-351 | an entry into `dead_letter` gives the row's last error as the reason, or that its retry budget is exhausted |
| OutboxSteps.BackfillContents | alembic/versions/a72d9c31e5bf_add_workspace_autonomy_judgment_claims.py:472-546 | the backfill's attentions: scope, root, reason and age of each dead letter |
| CronRevisions.RevisionsCount | alembic/versions/aa98102469b3_add_durable_automation_foundation.py:244-280 | over any run `revision` grows by the number of updates and `schedule_revision` by the number of those that wrote a different schedule, whatever clients wrote in the two columns |
| CronRevisions.RevisionsIdentify | alembic/versions/aa98102469b3_add_durable_automation_foundation.py:119-125 | equal `revision` at two points means the same row, equal `schedule_revision` the same scheduling fields |
| CronRevisions.StepKeepsOrdered | alembic/versions/aa98102469b3_add_durable_automation_foundation.py:24-125 | every step keeps 1 <= schedule_revision <= revision and at most one reconcile row per job and stamp |
| CronRevisions.RunKeepsOrdered | alembic/versions/aa98102469b3_add_durable_automation_foundation.py:24-125 | so in every state of every run |
| CronRevisions.ReconcileRowIdentifies | alembic/versions/aa98102469b3_add_durable_automation_foundation.py:119-125 | over one life of a job, the reconcile row written at one point is the job's reconcile row at a later point if and only if no update rescheduled it in between; the schedule is then the same and a second row is refused |
| CronRevisions.ReusedIdIsBlocked | alembic/versions/aa98102469b3_add_durable_automation_foundation.py:38-125 | across a delete and an insert of the same id it does not hold: the old row keeps out the reconcile row of another schedule |
| CronRevisions.CronJobs.Update | alembic/versions/aa98102469b3_add_durable_automation_foundation.py:244-280 | the written row is stored with `revision` one higher and `schedule_revision` one higher if the schedule differs, and no other job changes |
| CronRevisions.UpdateExactly | alembic/versions/aa98102469b3_add_durable_automation_foundation.py:250-268 | the same of the step: all written columns are stored, the two stamps by comparison of the five schedule columns |
| CronRevisions.OtherWritesExactly | alembic/versions/aa98102469b3_add_durable_automation_foundation.py:24-125 | a new job starts at 1 and 1, a deleted job leaves its operations, and an operation is refused if its id or its reconcile key is taken |
| Receipts.StepKeepsLedger | alembic/versions/a1f6e8c2d4b7_add_task_session_creation_receipts.py:41-87 | every step keeps the tombstones whole, the references live and the three unique constraints |
| Receipts.StepNeverHalves | alembic/versions/a1f6e8c2d4b7_add_task_session_creation_receipts.py:112-152 | one step leaves a receipt as it was, or tombstones an intact one with both ids cleared, or removes it with its workspace |
| Receipts.ReceiptExactly | alembic/versions/a1f6e8c2d4b7_add_task_session_creation_receipts.py:112-152 | a receipt goes exactly with its workspace, is tombstoned exactly if the statement deletes its conversation, its message or its message's workspace, and otherwise stays |
| Receipts.CreateExactly | alembic/versions/a1f6e8c2d4b7_add_task_session_creation_receipts.py:41-87 | a receipt is created exactly if its id and unique columns are free and what it names is live |
| Receipts.OtherRowsExactly | alembic/versions/a1f6e8c2d4b7_add_task_session_creation_receipts.py:41-71 | conversations, messages and workspaces come and go as the statement says, and no receipt appears by itself |
| Receipts.NeverHalfCleared | alembic/versions/a1f6e8c2d4b7_add_task_session_creation_receipts.py:41-152 | over any run a receipt that was intact is at every later point intact with both ids live, or a whole tombstone, in the same slot, or a step before deleted its workspace and the receipt with it |
| Receipts.SlotStaysTaken | alembic/versions/a1f6e8c2d4b7_add_task_session_creation_receipts.py:72-78 | while it is present, tombstone or not, no other receipt can take its scope-and-key slot |
| Receipts.ReceiptTable.DeleteConversation | alembic/versions/a1f6e8c2d4b7_add_task_session_creation_receipts.py:112-144 | the trigger's update before the delete is the specified step |
| FrameReader.Connection.FillTo | scripts/verify_full_sandbox_runtime.py:455-456 | the fill loop loses and reorders no byte, and stops short only at the end of the stream |
| FrameReader.Connection.ReadHead | scripts/verify_full_sandbox_runtime.py:449-451 | likewise until the blank line |
| FrameReader.Connection.ReadFrameFrom | scripts/verify_full_sandbox_runtime.py:455-469 | the frame read depends only on the bytes left, not on the chunks |
| FrameReader.Connection.Probe | scripts/verify_full_sandbox_runtime.py:449-471 | the whole probe's outcome is a function of the byte stream alone |
| FrameReader.FindStable | scripts/verify_full_sandbox_runtime.py:450-452 | later bytes never move the first blank line |
| FrameReader.DecodeInvertsEncode | scripts/verify_full_sandbox_runtime.py:457-469 | reading an unmasked frame encoded per section 5.2 of RFC 6455, with any flags, opcode, payload and bytes behind it, gives the opcode and payload, in all three length forms |
| FrameReader.FrameStable | scripts/verify_full_sandbox_runtime.py:455-469 | once a frame is read, more bytes change nothing |
| FrameReader.CloseFrameVerdict | scripts/verify_full_sandbox_runtime.py:470-471 | a close frame (section 5.5.1) makes the probe exit with 0 if and only if its code is 4001 |
| FrameReader.OtherFramesFail | scripts/verify_full_sandbox_runtime.py:471 | any other opcode makes it exit with 1 |
| FrameReader.RefusedUpgradeFails | scripts/verify_full_sandbox_runtime.py:453-454 | a head whose status line does not say 101 makes it exit with 2, whatever follows |
| FrameReader.UpgradedStreamIsRead | scripts/verify_full_sandbox_runtime.py:449-469 | a 101 response followed by a frame is read as that frame |
| FrameBytes.UpgradeByBytes | scripts/verify_full_sandbox_runtime.py:450-454 | a head is upgraded if and only if its bytes before the first CR LF contain " 101 ", and the bytes after the first blank line are then the frame |
| FrameBytes.NoHeadStalls | scripts/verify_full_sandbox_runtime.py:450-451 | without a blank line the probe reads on |
| FrameBytes.ShortFrame | scripts/verify_full_sandbox_runtime.py:455-469 | a length below 126 stands in the second byte, whatever its mask bit |
| FrameBytes.MediumFrame | scripts/verify_full_sandbox_runtime.py:460-463 | after 126 it stands in two bytes, the high one first |
| FrameBytes.LongFrame | scripts/verify_full_sandbox_runtime.py:464-467 | after 127 it stands in eight, the high ones first |
| FrameBytes.CutFrameStalls | scripts/verify_full_sandbox_runtime.py:455-468 | a frame cut off anywhere is waited for |
| FrameBytes.ExitByBytes | scripts/verify_full_sandbox_runtime.py:470-471 | the probe exits with 0 exactly for opcode 8 and a payload that begins with the bytes 15 and 161 |
| ForeignKeys.DropOneExactly | alembic/versions/e9f0a1b2c3d5_relax_conversation_workspace_links.py:55-109 | one loop turn succeeds if and only if the column is in exactly one foreign key and that key is the legacy link, and drops just that key |
| ForeignKeys.UpgradeExactly | alembic/versions/e9f0a1b2c3d5_relax_conversation_workspace_links.py:22-113 | both turns succeed if and only if both legacy links are there in the initial catalog, and remove just those two |
| ForeignKeys.UpgradeDowngradeUpgrade | alembic/versions/e9f0a1b2c3d5_relax_conversation_workspace_links.py:115-156 | the restore succeeds if and only if no link dangles and the names are free, and a second upgrade then gives the same catalog |
| ForeignKeys.UpgradeByName | alembic/versions/e9f0a1b2c3d5_relax_conversation_workspace_links.py:22-113 | the block succeeds if and only if the two columns' only foreign keys are, under one of two literal names each, the links to `workspaces` and `workspace_tasks` set to null on delete |
| ForeignKeys.DowngradeByName | alembic/versions/e9f0a1b2c3d5_relax_conversation_workspace_links.py:115-156 | the restore goes through if and only if neither kind of link dangles and the two literal names are free, and adds the two links |
| ForeignKeys.ConversationsTable.DropLinks | alembic/versions/e9f0a1b2c3d5_relax_conversation_workspace_links.py:22-113 | the loop drops both or, when it raises, the catalog is unchanged |
| Baseline.FileLines | scripts/check-i18n-gettext.py:144-153 | the lines of the written file are the header, a blank line and the keys |
| Baseline.FileByLine | scripts/check-i18n-gettext.py:144-153 | the file character by character: header lines, an empty line, keys, each ended by a line feed |
| Baseline.LoadsLines | scripts/check-i18n-gettext.py:134-141 | a line is loaded, stripped, unless it is blank or its own first character is `#` |
| Baseline.BreaksAndSpaces | scripts/check-i18n-gettext.py:134-141 | the line breaks and blanks of Python's string methods, by code point |
| Baseline.CutAtBreak | scripts/check-i18n-gettext.py:134-141 | a line ends at its first break; a carriage return takes a following line feed along |
| Baseline.StripExactly | scripts/check-i18n-gettext.py:134-141 | stripping removes blanks from both ends and nothing else |
| Baseline.RoundTripExactly | scripts/check-i18n-gettext.py:134-153 | loading a written baseline gives exactly the written key set if and only if every key is nonempty, on one line, trimmed and does not start with `#` |
| Baseline.NothingNew | scripts/check-i18n-gettext.py:186-219 | the check reports nothing new if and only if every current key is in the baseline |
| Baseline.NewKeysExactly | scripts/check-i18n-gettext.py:186-190 | a key is reported new as often as it is current if it is not in the baseline, else never, in the order of the scan |
| Baseline.RemovedExactly | scripts/check-i18n-gettext.py:191-191 | an entry is reported gone if and only if it is in the baseline and not current |
| Baseline.CheckAfterUpdate | scripts/check-i18n-gettext.py:186-219 | a check straight after an update reports nothing new and nothing removed if and only if every key survives the round trip |

## Left out

- RefreshSoundness.GuardIsSound: the condition `GuardedAll` is a sufficient one that a reader can check block by block; `GuardVerdict` has the exact condition for every program, and `BranchAssignmentEscapes`, `BareAnnotationHides`, `UnlistedMethodEscapes`, `LoopCarriedEscapes` and `HandlerEscapes` show what must be excluded. The scanned files contain the third family (`src/infrastructure/adapters/primary/web/routers/tenants.py:55-58`).
- Runs of scanned programs are over-approximated: any statement may break off, every branch is possible, `with`, loop, handler, pattern and import targets hold arbitrary values, a function body starts from any store, and an unknown `populate_existing` may be on or off. A method of the guard's table returns a query in every library.
- Closures, lambdas run later, conditional expressions, assignment expressions, `except*`, and rebinding of the names `select` and `refresh_select_statement`: outside the run semantics; they are plain nodes to the walk.
- The text and path of a reported violation, the search for files, printing and exit codes of the guard.
- LocaleHeap.PyDicts.AddAllKeys: key order of dicts, the files, the NOTE and WARN lines and list or number contents of JSON values are not modelled.
- LocaleDeepMerge.DeepMergeInPlace: destination and source share no dict when the merge starts, as in `update`, which parses the destination anew for each call, or the destination has the source already; a merge of partly shared dicts that still changes something is not covered.
- LocaleMerge.PathFormIsTreeForm: the source is a tree of strings without empty dicts, since `_set_deep` takes string values only and cannot make an empty dict; a source with a dotted key may still happen to agree on a destination that already holds its leaves.
- ProviderSplit.ProviderTables.RunUpgrade: columns that are copied unchanged are one field, configuration values are strings, and adding the column, the index and the check constraint, and the downgrade, are not modelled.
- WorkspaceAuthority.RevisionIsFaithful: tool execution records are in the accounting (`WriteBumpsExactly`) but not in the contents, because their owner is found through conversations, whose changes fire no trigger here.
- Canonical-mode writes, 64-bit overflow of revisions, rewriting a workspace's id, and mutation receipts of the authority migration. A cascade between child tables is several row writes.
- DeadLetters.RunKeeps: attentions of the judge, judgment claims and leasing services are not modelled; tasks, profiles, ticks and bindings are not deleted, and the clock is a parameter.
- CronRevisions.RunKeepsOrdered: request receipts, owners and the other operation indexes are not modelled; a JSON field is its value.
- Receipts.NeverHalfCleared: actor, tenant and project cascades and the other columns are not modelled.
- FrameReader.Connection.Probe: the probe reads on for ever at the end of the stream, which is the outcome `Stalled`; a peer that stays silent for the socket's five seconds raises in the source and is not modelled, nor is building the request; the mask bit is ignored as in the source.
- ForeignKeys.UpgradeExactly: lock timeouts are not modelled and attribute numbers are column names.
- Baseline.RoundTripExactly: the scan for keys is not modelled; the header is any list of comment lines.
- The scripts of waves B, C2 and C3 have the same bodies of `_set_deep` and `deep_merge` with other payloads; the regular-expression scripts are calls into the regular-expression and document libraries; plain table migrations are lists of statements without conditions; and the HTTP, Docker and browser glue is input and output.
