# SnowDDL: verified models of the reconciliation core

SnowDDL compares declared blueprints with live Snowflake objects and emits DDL until the two agree.
This project models the parts where that is hard to get right, in Dafny 4.11, and proves what they
promise. Snowflake is an abstract world of maps and sets, threads are arbitrary interleavings, and git
is a graph of commits of which every clone holds a part.

`dafny verify dfyconfig.toml` checks the whole project.

| file | what it models |
|---|---|
| `Batching.dfy` | dependency batches of a resolver, with the fallback for cycles |
| `IntentionCache.dfy`, `DropRun.dfy` | drops over a whole run: `plan` with the intention cache against `apply` with real cascades |
| `ObjectRuns.dfy` | the one result of each name in a resolver run, and the two passes over functions |
| `MaskingPolicy.dfy` | masking policies moving between columns under parallel tasks |
| `RevisionGuard.dfy` | the apply-revision guard over serialised applies of several clones |
| `RoleGrants.dfy`, `ObjectGrants.dfy`, `PatternGrants.dfy` | grant reconciliation for roles, schema objects, database roles and shares |
| `Alerts.dfy` | the suspend, alter, resume machine of alerts |
| `SingleDb.dfy` | in-place renaming of shared identifiers, and the renamed configuration |
| `Engine.dfy` | per-thread statement buffers and the two logs |
| `Formatter.dfy`, `CheckConstraints.dfy`, `Arguments.dfy`, `IdentPatterns.dfy`, `Idents.dfy`, `TargetLag.dfy` | printers, scanners and their round trips |
| `Basics.dfy`, `Strings.dfy`, `ObjectTypes.dfy` | shared datatypes, grant types and string operations |

Loops and mutating objects are methods and classes, proved against functions; the properties are lemmas
about those functions. Where the code does not keep what its comments promise, the model keeps the code,
a lemma shows an input that fails, and the property is proved under the exact condition:

- **Masking policies.** The reconciler recognises an existing reference by the declared object type and
  the column, but the check for other claimants looks at the column only. If the declared type is not
  the one Snowflake reports (say `TABLE` for a dynamic table) and the column already carries its
  claimant, the task sets the policy and then removes it: `Mistyped`, `MistypedRun`. In all other cases
  the fork's promise holds for every interleaving. Over several runs it holds for a column exactly when
  the type of its reference is the reported one: `MaskedAfterRunsExactly`. Two assumptions on Snowflake are
  behind the failing half: a plain SET of the policy that is already there succeeds, and so does a SET under
  the wrong type. The latter holds where both types are altered by the same keyword, as `TABLE` and
  `DYNAMIC_TABLE` are; with another keyword, as for a view declared as a table, the statement fails and the
  task ends there.
- **Drops in plan and apply.** The intention cache watches tables, external tables and hybrid tables as
  containers of constraints, and tables and external tables as targets of foreign keys. An undeclared
  iceberg, dynamic or event table that has a key, or that a foreign key refers to, makes `plan` list a
  drop of the key that `apply` never issues: `LosesKey`, `LostKeyRun`, `LostKeySetting`,
  `LostReferenceSetting`. Otherwise the two emit the same drops. The resolvers of these tables are skipped
  where none of their type is declared, unless `--include-object-types` names the type, so the case needs a
  declared table of the same type or that option: `ExactWhenSkipped`.
- **Revision guard.** Stamps carry the type of their object, but the guard looks them up by full name,
  and a table, its primary key and a stage can share one. What is promised of an object therefore holds
  of a full name. The next apply moves an object forward from its own stamp exactly when the latest stamp of
  its name descends from that stamp: `ObjectMovesForwardExactly`, `SharedNameRun`, `RefusedForAnother`.
- **Role grants.** A new future grant on a type without `is_future_grant_supported` is expanded with ON
  ALL, and the next run revokes the expansion: `Churns`, `NotebooksChurn`. A declared comment that is
  the empty string is altered on every run. Ownership of a notebook or share that nobody declared is
  reported as `GRANT` on every run without a statement.
- **Object grants.** A revoke names its role through an identifier, which puts it in upper case, so an
  extra grantee with lower-case letters is never revoked; a block that names roles for OWNERSHIP is
  reported on every run: `Odd`, `Persists`.
- **Names in grant listings.** A listed name belongs to the environment if its text starts with the
  prefix. A prefix hidden by quotes or lower-case letters is missed although the rebuilt name prints with
  it. Patterns are then matched against the name with its prefix, and a run can revoke a grant that its
  patterns ask for: `Hides`, `WantedIsSafeExactly`, `QuotedDatabaseIsRevoked`.
- **LIKE patterns.** `escape_like` does not escape backslashes. Each of the four forms selects what it is
  for exactly when its values have none.

## Model

| member | source | states |
|---|---|---|
| Batching.SplitBlueprintsIntoBatches | snowddl/resolver/abc_resolver.py:181-212 | terminates; the batches keep dictionary order, share no name and cover all blueprints; a resolvable name sits at the index of its longest dependency chain; a fallback batch is last and holds exactly the names from which a cycle or an undeclared name is reachable |
| Batching.DependenciesComeFirst | snowddl/resolver/abc_resolver.py:181-212 | whatever a resolvable blueprint depends on is declared and sits in an earlier batch |
| Batching.StuckIsUnresolvable | snowddl/resolver/abc_resolver.py:193-204 | when nothing can join, every name left reaches a cycle or an undeclared name, by pigeonhole on its chains |
| Batching.LevelIsResolvable | snowddl/resolver/abc_resolver.py:186-210 | a name allocated by an ordinary round reaches neither |
| Batching.FreshNameIsLongest | snowddl/resolver/abc_resolver.py:186-210 | a name allocated in round k has a dependency chain of k + 1 names and no longer one |
| MaskingPolicy.RunInv | snowddl/resolver/masking_policy.py:163-254 | the invariant of tasks and columns holds after any number of steps of any tasks in any order |
| MaskingPolicy.PlainSetIsAllowed | snowddl/resolver/masking_policy.py:163-239 | whenever a SET is due, in any interleaving, it has FORCE if and only if its column then carries another policy, so no task is refused |
| MaskingPolicy.ClaimedColumnStaysMasked | snowddl/resolver/masking_policy.py:163-254 | a claimed column that starts masked, and whose reference is not mistyped, is masked at every moment of every interleaving, by its old policy or its claimant |
| MaskingPolicy.ClaimedColumnAtEnd | snowddl/resolver/masking_policy.py:163-254 | at the end a claimed column carries its claimant if and only if its reference is not mistyped; a mistyped one leaves it unmasked |
| MaskingPolicy.UnclaimedColumnAtEnd | snowddl/resolver/masking_policy.py:203-219 | an unclaimed column ends without any declared policy, and other policies on it are untouched |
| MaskingPolicy.SecondRunIsSilent | snowddl/resolver/masking_policy.py:163-219 | over settled columns, and with every declared type as reported, no task sets or removes anything |
| MaskingPolicy.FinalMasksAreSettled | snowddl/resolver/masking_policy.py:163-254 | if every reference has the reported type, a finished run leaves each claimed column with its claimant and no declared policy elsewhere |
| MaskingPolicy.MaskedAfterRunsExactly | snowddl/resolver/masking_policy.py:163-254 | over two or more runs in a row, a claimed column is masked after each of them if and only if its reference has the reported type; with a wrong type the first or the second run unmasks it |
| MaskingPolicy.MaskedThroughoutRuns | snowddl/resolver/masking_policy.py:163-254 | with the reported type a column that starts masked is masked at every moment of all the runs |
| MaskingPolicy.LaterRunsAreSilent | snowddl/resolver/masking_policy.py:163-254 | from the second run on no task sets or removes anything if and only if every reference has the reported type |
| MaskingPolicy.StepComesCloser | snowddl/resolver/masking_policy.py:163-219 | every step brings its task closer to the end, so every run is finite |
| MaskingPolicy.UnfinishedTaskCanStep | snowddl/resolver/masking_policy.py:163-219 | a task that is not finished can always move |
| MaskingPolicy.MistypedRun | snowddl/resolver/masking_policy.py:163-254 | a run of one task that removes the mask it should keep |
| MaskingPolicy.IsClaimedByOtherBlueprint | snowddl/resolver/masking_policy.py:241-254 | true exactly when another declared policy lists the column |
| MaskingPolicy.ApplyPolicyRefs | snowddl/resolver/masking_policy.py:163-219 | the sequential task is a run of the state machine from start to end; its statements are exactly those of the steps of that run, one SET or UNSET each; it reports a change exactly when it issued one |
| IntentionCache.ImplicitMeansSeen | snowddl/resolver/foreign_key.py:111-139 | a drop is suppressed exactly when the object goes away with a recorded object or column that the cache watches |
| IntentionCache.TablesContainConstraints | snowddl/cache/intention_cache.py:41-71 | of a table its keys and CHECK constraints go along, of every kind, and nothing else |
| DropRun.PlanIsExact | snowddl/resolver/abc_resolver.py:108-157 | over a whole run `plan` and `apply` emit the same drops if and only if no undeclared key goes away with its table, or the table it refers to, through a cascade that the cache does not watch while nothing it watches takes the key along; both sides of that condition are read off the account and the configuration |
| DropRun.DropsAreForeseen | snowddl/resolver/abc_resolver.py:108-157 | which objects each resolver drops, in `plan` and in `apply`, told from the account and the configuration alone: an existing object of its type that is droppable and that nothing takes along, as far as a plan knows |
| DropRun.MayDropExactly | snowddl/resolver/abc_schema_object_resolver.py:185-202 | droppable are undeclared objects outside sandboxes: a schema only in a declared database, an object in a schema only in a declared schema, and neither in one that is a sandbox |
| DropRun.ApplyDropsExactly | snowddl/resolver/abc_resolver.py:108-157 | for every resolver and object, `apply` drops what `plan` drops, less those keys |
| DropRun.NoDropAfterContainer | snowddl/cache/intention_cache.py:41-71 | no drop of an `apply` names an object that an earlier drop or replacement of the run took along, and none of a `plan` does unless it is such a key |
| DropRun.LostKeyRun | snowddl/resolver/primary_key.py:96-106 | the run in which `plan` lists a drop that `apply` does not issue |
| DropRun.LostKeySetting | snowddl/cache/intention_cache.py:41-71 | an account in which it occurs: an undeclared iceberg table with a primary key, and another iceberg table that is declared, so that the resolver runs |
| DropRun.LostReferenceSetting | snowddl/resolver/foreign_key.py:111-139 | another one: an undeclared foreign key that refers to such an iceberg table |
| DropRun.ExactWhenSkipped | snowddl/resolver/abc_resolver.py:214-228 | where no iceberg, dynamic, event or hybrid table is declared and no filter asks for them, their resolvers are skipped and `plan` and `apply` emit the same drops |
| DropRun.Engine.ResolveDrop | snowddl/resolver/abc_resolver.py:108-122 | drops exactly the droppable objects whose drop is not implied, collected before the first of them runs |
| DropRun.Engine.Resolve | snowddl/resolver/abc_resolver.py:42-59 | a resolver that is not skipped is one step of the modelled run, and a skipped one does nothing |
| DropRun.Run | snowddl/resolver/abc_resolver.py:42-228 | the resolvers of the sequence that are not skipped, in order, are the run that the theorems speak about; it drops exactly the foreseen objects, and never a declared one or one in a sandbox |
| DropRun.RunsExactly | snowddl/resolver/abc_resolver.py:214-228 | when a resolver runs: edition, excluded and included types, and what is declared |
| ObjectRuns.RunResolver | snowddl/resolver/abc_schema_object_resolver.py:164-202 | every name has at most one result: declared ones are skipped in an unmanaged schema, else compared if they exist and created if not; undeclared existing ones are dropped unless the intention cache says that another drop implies it, or their container is undeclared or a sandbox |
| ObjectRuns.Resolver.ResolveDrop | snowddl/resolver/schema.py:298-323 | for things of the account, schemas and objects in schemas the dropped names are exactly those |
| ObjectRuns.Resolver.ResolveCreateCompare | snowddl/resolver/abc_resolver.py:77-106 | each batched name gets its one result |
| ObjectRuns.RunFunctions | snowddl/resolver/function.py:44-275 | in one log of both passes and the views between them, each declared function has one result in its pass, every deferred one comes after all views and all other functions, and no declared function is dropped |
| RevisionGuard.Guard.Check | snowddl/revision_guard.py:242-271 | the outcome is the verdict computed without the cache, on the latest stamp of the full name |
| RevisionGuard.Guard.Ancestry | snowddl/revision_guard.py:288-314 | the memoised answer is the one git gives |
| RevisionGuard.Guard.Flush | snowddl/revision_guard.py:200-240 | the stamps written are those of the records, and none on a plan |
| RevisionGuard.Invoke | snowddl/resolver/abc_resolver.py:257-295 | every object asked for is either refused, and then gets no DDL and no stamp, or gets its DDL; a plan refuses none; the new stamps are those of the objects that were not refused and were created or replaced, on an apply with the guard enabled |
| RevisionGuard.OtherResultsLeaveNoStamp | snowddl/revision_guard.py:273-284 | results other than CREATE and REPLACE leave the log as it was |
| RevisionGuard.HistoryIsMonotonic | snowddl/revision_guard.py:200-314 | over any serialised applies and plans of clones holding different parts of the history, with the guard on or off, consecutive stamps of a full name are ancestor-or-equal or the later one has a reason |
| RevisionGuard.ObjectMovesForwardExactly | snowddl/revision_guard.py:242-271 | whichever apply without a reason writes an object next, it moves forward from a given stamp, if and only if the latest stamp of its full name descends from that stamp |
| RevisionGuard.ObjectMovesForward | snowddl/revision_guard.py:200-314 | consecutive stamps of one object, type and name, are ancestor-or-equal or the later one has a reason, unless another object of that full name was stamped with a reason in between |
| RevisionGuard.UniqueNamesMoveForward | snowddl/revision_guard.py:200-314 | where full names tell objects apart, the same for every object |
| RevisionGuard.SharedNameRun | snowddl/revision_guard.py:242-250 | three applies in which a table goes sideways without a reason of its own, because its primary key was created with one in between |
| RevisionGuard.RefusedForAnother | snowddl/revision_guard.py:242-250 | a table nobody has stamped is refused, because a stage of its full name was stamped |
| RevisionGuard.InvocationKeepsMonotonic | snowddl/revision_guard.py:200-314 | every single invocation keeps that |
| RevisionGuard.LaterDescendsFromEarlier | snowddl/revision_guard.py:242-271 | between two stamps of a full name, without reasons after the first, the later revision descends from the earlier one |
| RevisionGuard.RefusesExactlyUnproven | snowddl/revision_guard.py:242-271 | in every case: an apply refuses, and a plan warns, exactly when the guard is enabled, no reason is given, the full name has a stamp, and the clone cannot show that the recorded revision is its own or an ancestor |
| RevisionGuard.PlansLeaveNoTrace | snowddl/revision_guard.py:200-271 | plans between the applies change nothing: the log is the one of the applies alone |
| RevisionGuard.PlanLeavesNoTrace | snowddl/revision_guard.py:200-271 | any single plan, wherever it stands in the history, can be left out without changing the log |
| RoleGrants.RoleHoldsWhatIsDeclared | snowddl/resolver/abc_role_resolver.py:209-260 | after one comparison the role holds exactly the declared grants, what an ON ALL of the run reached, and of what it held the ownership of notebooks and shares and every grant with the privilege and type of a declared future grant on an object in its parent; account and future grants are exactly the declared ones |
| RoleGrants.MatchesExactly | snowddl/blueprint/grant.py:40-64 | a future grant matches exactly the grants of its privilege on objects of its type, where the type supports future grants, in its schema or database |
| RoleGrants.StatementsExactly | snowddl/resolver/abc_role_resolver.py:209-390 | for every statement, whether a comparison issues it: revokes and transfers of ownership for what is unwanted, grants for what is missing, and ON ALL for new or refreshed future grants |
| RoleGrants.SecondRunIsSilent | snowddl/resolver/abc_role_resolver.py:209-260 | the next run issues nothing if and only if the declared comment is not empty text and no ON ALL went to a type without future grants |
| RoleGrants.SecondRunReports | snowddl/resolver/abc_role_resolver.py:209-331 | the second of two runs reports no change if and only if the declared comment is not empty text, no ON ALL of the first went to a type without future grants, and no undeclared ownership of a notebook or share was held or gained |
| RoleGrants.SecondOutcome | snowddl/resolver/abc_role_resolver.py:209-306 | any comparison reports no change exactly when it issues nothing and nothing unwanted is stuck |
| RoleGrants.StuckNotebook | snowddl/resolver/abc_role_resolver.py:294-331 | a role that reports a change on every run and never issues a statement |
| RoleGrants.NoRevokeHitsAWantedGrant | snowddl/resolver/abc_role_resolver.py:220-260 | a revoked grant was held, and is held after the run if and only if an ON ALL of the run, for a type without future grants, gives it back |
| RoleGrants.MatchDependsOnKey | snowddl/blueprint/grant.py:14-64 | what a future grant matches depends only on privilege, grant type and printed name |
| RoleGrants.MatchedIsExpanded | snowddl/blueprint/grant.py:40-64 | what a future grant matches is what its ON ALL gives on that object |
| RoleGrants.ReachedIsMatched | snowddl/blueprint/grant.py:40-64 | what ON ALL reaches is matched exactly when the type supports future grants |
| RoleGrants.NotebooksChurn | snowddl/resolver/abc_role_resolver.py:375-390 | an input whose expansion the next run revokes |
| RoleGrants.RoleResolver.CompareObject | snowddl/resolver/abc_role_resolver.py:209-260 | issues exactly the modelled statements in order and reports the modelled result |
| RoleGrants.RoleResolver.DropGrant | snowddl/resolver/abc_role_resolver.py:294-331 | revokes, hands ownership back, or leaves ownership of notebooks and shares alone |
| ObjectGrants.NamedBecomeDeclared | snowddl/resolver/abc_schema_object_resolver.py:60-147 | the roles holding a named privilege become exactly the prefixed declared ones, if and only if no extra grantee has lower-case letters |
| ObjectGrants.NamedBecomeUnion | snowddl/resolver/abc_schema_object_resolver.py:130-145 | without unsafe statements they become the union |
| ObjectGrants.OthersUntouched | snowddl/resolver/abc_schema_object_resolver.py:60-147 | other privileges and grantees that are not roles stay as they are |
| ObjectGrants.SecondRunReports | snowddl/resolver/abc_schema_object_resolver.py:60-147 | the next run reports a change exactly for roles named for OWNERSHIP or extra grantees with lower-case letters |
| ObjectGrants.OddGranteeStays | snowddl/resolver/abc_schema_object_resolver.py:130-145 | an extra grantee that keeps the privilege |
| ObjectGrants.SecondSafeRunReports | snowddl/resolver/abc_schema_object_resolver.py:130-145 | without unsafe statements it reports a change exactly for extra grantees, or for OWNERSHIP |
| ObjectGrants.Account.GrantAll | snowddl/resolver/abc_schema_object_resolver.py:112-128 | grants are issued to the bare declared names, and what is then held is exactly the prefixed names that were missing: the prefix is on once |
| ObjectGrants.Account.RevokeAll | snowddl/resolver/abc_schema_object_resolver.py:130-145 | revokes are issued to the live names with no further prefix, and hit these names in upper case |
| ObjectGrants.PlanChangesNothing | snowddl/resolver/abc_schema_object_resolver.py:60-147 | with both settings off the grants stay as they are |
| ObjectGrants.Account.ReconcileObjectGrants | snowddl/resolver/abc_schema_object_resolver.py:60-147 | leaves the modelled grants, and reports a change exactly when a named privilege has other grantees than declared |
| Alerts.ReachesDeclared | snowddl/resolver/alert.py:88-210 | from any alert that the row shows the statements run through, so every definition change meets a suspended alert, and leave definition and run state as declared |
| Alerts.ChangesMeetSuspended | snowddl/resolver/alert.py:88-210 | when the warehouse, the schedule, the condition or the action is changed, the alert is suspended |
| Alerts.SilentIffDeclared | snowddl/resolver/alert.py:88-210 | nothing is issued if and only if the alert is as declared |
| Alerts.SecondCompareIsSilent | snowddl/resolver/alert.py:88-210 | a second comparison issues nothing |
| Alerts.CreateReachesDeclared | snowddl/resolver/alert.py:41-86 | creating leaves the declared definition and run state |
| Alerts.AlertResolver.CompareObject | snowddl/resolver/alert.py:88-210 | issues the modelled statements, and reports `ALTER` exactly when there is one |
| SingleDb.ConvertBlueprint | snowddl/app/singledb.py:322-361 | however objects are shared, the blueprint looks as before with every database, schema and schema object identifier carrying the target database and everything else of it unchanged, and every set below it holds its elements under the texts they print now |
| SingleDb.RenamedIsMoved | snowddl/app/singledb.py:358-361 | what the assignment does to an identifier, class by class |
| SingleDb.ConvertObjectRecursive | snowddl/app/singledb.py:329-369 | every call changes no object's image, keeps what is converted, and does not touch objects above it |
| SingleDb.ConvertSet | snowddl/app/singledb.py:354-356 | the set is rebuilt with each element under its new text |
| SingleDb.DoneLooksRenamed | snowddl/app/singledb.py:329-361 | a converted value looks like its image, sets included |
| SingleDb.ReplaceLeads | snowddl/app/singledb.py:329-369 | one write of an identifier or slot, wherever it is shared, changes the image of no object |
| SingleDb.RenamingIsInjective | snowddl/app/singledb.py:306-320 | selected names that print alike after the renaming printed alike before |
| SingleDb.ConvertConfig | snowddl/app/singledb.py:306-320 | every blueprint of the source database is in the new configuration under the text of its name in the target database, no other is, and there are as many as were selected |
| Engine.Run | snowddl/engine.py:66-115 | over any interleaving, with flushes anywhere, the executed and suggested logs have each statement exactly once where settings and condition send it, in the order of its thread |
| Engine.SentExactly | snowddl/engine.py:66-76 | where that is: a safe statement by one setting, an unsafe one by the other, and its condition |
| Engine.SnowDDLEngine.FlushThreadBuffers | snowddl/engine.py:78-88 | the logs grow by the buffers, which are empty afterwards |
| Engine.PlanExecutesNothing | snowddl/engine.py:66-76 | with both settings off nothing is executed and every statement is suggested |
| Engine.EveryStatementOnce | snowddl/engine.py:66-115 | no statement that Snowflake accepts is lost or logged twice |
| Formatter.QuoteRoundTrip | snowddl/formatter.py:65-87 | a SQL lexer reads a printed string back from any following text and stops at its end |
| Formatter.IdentRoundTrip | snowddl/formatter.py:69-113 | dotted quoted identifiers read back as their parts, and only empty parts are refused |
| Formatter.FullMatchSelects | snowddl/formatter.py:78-117 | the `lf` pattern selects exactly the equal string if and only if the value has no backslash |
| Formatter.StartsWithSelects | snowddl/formatter.py:78-121 | the `ls` pattern selects exactly the strings with that prefix, under the same condition |
| Formatter.EndsWithSelects | snowddl/formatter.py:78-125 | the `le` pattern selects exactly the strings with that suffix, under the same condition |
| Formatter.StartsEndsWithSelects | snowddl/formatter.py:78-129 | the `lse` pattern selects exactly the strings with that prefix and a suffix apart from it, under the same condition |
| CheckConstraints.ReadsExactlyTheClauses | snowddl/resolver/check_constraint.py:11-58 | from text whose only matches are its named clauses the scanner reads exactly the map from unquoted names to stripped expressions, parentheses and quotes inside literals included |
| CheckConstraints.ParseCheckConstraints | snowddl/resolver/check_constraint.py:17-58 | the loops compute the specified map for every text |
| CheckConstraints.ScanExpression | snowddl/resolver/check_constraint.py:29-54 | the scan stops where the specification does |
| CheckConstraints.HeadOf | snowddl/resolver/check_constraint.py:11-14 | the clause pattern matches every clause head, with keywords in any case and quoted or plain names |
| CheckConstraints.HeadReads | snowddl/resolver/check_constraint.py:11-14 | and nothing else: wherever it matches, there is such a head, with the name that it finds |
| CheckConstraints.ScanPieces | snowddl/resolver/check_constraint.py:34-54 | the scan passes over any balanced expression, at any depth |
| CheckConstraints.StopsAfterBalanced | snowddl/resolver/check_constraint.py:29-54 | and where it stops, in whatever text, it has passed over a balanced expression |
| Arguments.SplitOfJoin | snowddl/resolver/_utils.py:53-74 | splitting a comma-join of balanced parts gives the trimmed parts |
| Arguments.SplitByCommaOutsideParentheses | snowddl/resolver/_utils.py:53-74 | the loop computes the specified parts |
| Arguments.DtypesOfShown | snowddl/resolver/_utils.py:31-50 | for any argument types, with DEFAULT prefixes and sizes, the SHOW text gives the comma-joined base types |
| Arguments.DtypesFromArguments | snowddl/resolver/_utils.py:31-50 | the loop computes the specified text, or an error where a delimiter is missing |
| Arguments.DtypesFailExactly | snowddl/resolver/_utils.py:31-36 | that is where the opening parenthesis or `) RETURN ` is missing, and nowhere else |
| Arguments.KeyIsBlueprintName | snowddl/resolver/function.py:21-27 | the key of an existing function is the printed blueprint name if and only if database, schema, name and base types agree |
| Idents.PrintedTexts | snowddl/blueprint/ident.py:99-197 | what each class of identifiers prints: the prefix once, in front of the first part, and arguments in parentheses |
| Idents.PrintDeterminesPath | snowddl/blueprint/ident.py:20-44 | identifiers that print alike, and so are equal and hash alike, have the same parts |
| IdentPatterns.DatabasePatternMatchesItsSchemas | snowddl/blueprint/ident_pattern.py:13-67 | the glob `DB.*` over names without prefix matches a schema if and only if it is of that database |
| IdentPatterns.BuildPattern | snowddl/blueprint/ident_pattern.py:13-39 | a pattern is built exactly from allowed text that, if it is complex, includes something; its sub-patterns are sorted into included and excluded ones |
| IdentPatterns.IdentPattern.IsMatchIdent | snowddl/blueprint/ident_pattern.py:45-54 | matches what an included and no excluded sub-pattern matches |
| IdentPatterns.MatchesExactly | snowddl/blueprint/ident_pattern.py:22-54 | with special characters: some sub-pattern matches, and none after an exclamation mark does; without: the names are equal |
| IdentPatterns.StarIsAnything | snowddl/blueprint/ident_pattern.py:22-37 | a star stands for any text |
| IdentPatterns.RebuildsIdent | snowddl/blueprint/ident_builder.py:54-94 | from its name in a grant listing an identifier is rebuilt as it was, prefix and argument types included |
| IdentPatterns.RebuiltIsCanonicalExactly | snowddl/blueprint/ident_builder.py:54-94 | a name rebuilt from any listing is taken to have the prefix exactly when it prints with it, if and only if quotes or lower-case letters do not hide the prefix in its first part |
| IdentPatterns.RebuiltOwnsPrefixExactly | snowddl/blueprint/ident_builder.py:54-94 | the same for names whose first part goes on after the prefix, as those of all declared objects do: the condition that the grant loops depend on |
| IdentPatterns.RebuiltIsCanonical | snowddl/blueprint/ident_builder.py:54-94 | both hold for every listed name whose first part is unquoted and in upper case |
| PatternGrants.InExpand | snowddl/resolver/database_role.py:156-171 | the expansion has a grant for every declared object that a pattern matches, and no other |
| PatternGrants.RoundTripIsCovered | snowddl/blueprint/grant.py:67-85 | a grant from a pattern is rebuilt from its listing as it was, and its pattern matches it |
| PatternGrants.HoldsWhatPatternsSay | snowddl/resolver/database_role.py:73-100 | if no text of the listing hides the prefix, the role afterwards holds exactly the privileges of the patterns on the declared objects they match, and the existing grants of their privilege and type whose names they match |
| PatternGrants.RevokesNothingWanted | snowddl/resolver/database_role.py:79-88 | if all listed names own their prefix, no run revokes a grant that its patterns expand to, so none that it creates either |
| PatternGrants.WantedIsSafeExactly | snowddl/resolver/database_role.py:73-100 | over a given listing no run, whatever its patterns and declared objects, revokes a grant that its patterns expand to, if and only if no text of the listing hides the prefix |
| PatternGrants.QuotedDatabaseIsRevoked | snowddl/resolver/database_role.py:79-88 | a listing that does, with its texts: the run revokes the grant that its pattern asks for |
| PatternGrants.NextRunIsSilent | snowddl/resolver/outbound_share.py:68-99 | the next run changes no grant, if no text of the two listings hides the prefix |
| PatternGrants.DatabaseRoleResolver.CompareObject | snowddl/resolver/database_role.py:73-100 | leaves the modelled grants and comment and reports the modelled result |
| PatternGrants.BuildDatabaseRoleGrants | snowddl/resolver/abc_role_resolver.py:392-438 | under the schema-owner ruleset a matched database yields USAGE on the `S_ROLE` of each of its declared schemas and of no other; under the database-owner one, on its own `D_ROLE` |
| TargetLag.RenderingIsStable | snowddl/converter/dynamic_table.py:107-121 | for every number of seconds the rendering is left alone by the parser and means that number |
| TargetLag.RenderedComparesEqual | snowddl/resolver/dynamic_table.py:339-353 | a rendered lag compares equal with exactly the lag it came from |
| TargetLag.NormaliseKeepsMeaning | snowddl/parser/dynamic_table.py:309-326 | normalising twice is normalising once, and keeps the seconds |
| TargetLag.NormaliseSpells | snowddl/parser/dynamic_table.py:309-326 | one of a unit is spelled singular, more of it plural, none of it as written |
| TargetLag.GetTargetLag | snowddl/converter/dynamic_table.py:107-121 | the search takes the unit that `UnitIsLargest` describes |
| TargetLag.UnitsAreSpelled | snowddl/resolver/dynamic_table.py:10-19 | eight unit names have a number of seconds, and no other text has |
| TargetLag.UnitIsLargest | snowddl/converter/dynamic_table.py:107-121 | that unit divides the seconds, and no larger one does |

## Left out

- Connector, git processes, files, YAML, JSON schemas, argument parsing and logging: what they answer is a parameter.
- Errors of single statements inside a resolver run, other than a refused object or SET: the runs are error-free.
- The CREATE and ALTER builders of tables, views, functions and the other object types: long and flat; what a comparison replaces, and which columns it drops, is an input of `DropRun`.
- Masking policies that are dropped or change their signature: that path unsets first by design.
- Applies that are not serialised, uncommitted changes in the working copy, and the wording of the guard's messages.
- The view over the revision table is not in the repository; it is taken to show one row per full name, the latest.
- Regular expressions beyond the patterns used: `[...]` sets in identifier patterns, and characters outside ASCII in white space, case folding and names.
- Database names with dots, and double-quoted identifiers inside CHECK expressions: the code does not claim to handle them.
- The order of the statements inside one `sorted(...)` loop of object grants and resolver tasks, and `sort_existing_grants`: the loops of the models take any order, or the order of the listing.
- Objects whose names differ only in case or quotes: grants are kept by the rebuilt name, which is in upper case, so `RoleGrants` and `PatternGrants` take a grant on `DB.S."t"` for one on `DB.S.T`. In the code its revoke names the other object, and the next run issues it again.
- `create_object` of roles, and the filters on phantom rows of grant listings: they add easy members.
- `convert_blueprint` starts with a deep copy of the blueprint; the copy itself is not modelled, and sets are values that are replaced, so two slots that shared one set object are each given an equal new set.
- SingleDb.ConvertConfig: speaks about the names of one blueprint class and not about the converted contents, which `ConvertBlueprint` covers.
- Keys of hybrid tables, which the listings leave out: the account of a `DropRun` setting is what the listings show.
- DropRun.PlanIsExact: each kind of object has one resolver in the order; the later passes over functions and databases drop nothing and are not in it.
- ObjectGrants.Account.ReconcileObjectGrants: role names with characters that identifiers refuse raise an error in the code and are not modelled.
- PatternGrants.DatabaseRoleResolver.CompareObject: all statements are executed, and the accounts of a share are not modelled.
- IdentPatterns.RebuildsIdent: names that a listing quotes in full, and argument types with sizes, are outside of it.
- Arguments.DtypesOfShown: sizes contain no parentheses of their own, as in every type that SHOW prints.
- TargetLag.NormaliseKeepsMeaning: numbers are plain decimal digits; Python's `int` also takes signs, blanks and underscores.
- Formatter.QuoteRoundTrip: octal, hexadecimal and Unicode escapes of the lexer are left out, since no printed literal has them.
- Parameter comparison helpers, safe numbers and booleans of the formatter: easy members.
