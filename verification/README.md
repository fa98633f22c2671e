# A verified model of pgislet

pgislet gives every user an *islet*: a PostgreSQL schema with a role of its own and one row in a
registry, `(state, generation, init_token)`. Any number of Go servers, each with a Manager, work
on the same registry. This project models what those servers do to the registry and to the
islets, the SQL policy that every statement passes first, and the two algorithms inside a
transaction (budgets, dependency check), and proves what the design promises. The web example's
session table is modelled as well.

## The parts

**The lifecycle and gateway protocol** (`Gateway`, `Protocol`, `ProtocolInvariant`,
`ProtocolSteps`, `Serial`, `ProtocolRuns`, `ProtocolOutcomes`, `ProtocolOthers`,
`ProtocolHonesty`, `ProtocolHandles`, `Vetting`, `Manager`, `ProtocolReplies`, `ProtocolRecovery`,
`ProtocolSuccess`, `ProtocolReopening`). A state holds the committed islets, the row locks, every
transaction with its own uncommitted copy of an islet, and where each call has got to. An event is
one step of one call (lookup, `enter`, one statement, `finish`, lock, dependency check, drop,
rebuild, registry update, COMMIT, reply, late failure update, last read), of the server (commit,
abort), or a failure (an error, a timeout, a crash, a reply that is lost). A run is any sequence
of events, so a theorem about runs is about every interleaving of any number of calls. Only this
is assumed of PostgreSQL: a row lock is held to the end of its transaction (documentation section
13.3.2), each statement sees what is committed (13.2.1), a commit is atomic, and `opaque()` never
draws an identifier twice. A workspace is known by the statements that were executed in it since
it was last empty, each with its author and the generation of its handle.

`Serial` is the specification: whole operations performed one at a time on a map from identifiers
to islets. The committed state of every run is what the operations of the run do there, in commit
order. `ProtocolRuns`, `ProtocolOutcomes` and `ProtocolHonesty` draw conclusions over whole runs:
rows only move forward, fencing, initialisation settled once, honest outcomes. `ProtocolHandles`
and `ProtocolReopening` are about the handles that calls return. `Vetting` joins the protocol with
the policy: in its runs a statement is executed only after it has passed the check. `Manager`
holds the methods in the source's own imperative form, each step interleaved with arbitrary steps
of everybody else. `ProtocolReplies` says where a call goes with each answer, error or lost reply,
and what the late update does. `ProtocolRecovery` says who gets in, that a superseded handle never
does again, that cleanups carry through or mark the row, and that no islet ends up in a dead end.
`ProtocolSuccess` has the runs in which a batch, a creation and an initialisation succeed.

**The policy checker** (`Policy`, `PolicyMeaning`, `PolicySoundness`, `PolicyOrder`,
`PolicyReadings`, `PolicySchedules`, `PolicyTrees`, `PolicyExample`, `PolicyDepth`,
`PolicyChecker`). The walk over the parser's JSON tree, with the map of local names carried
through it. Go's map iteration order is a schedule that the theorems quantify over; the parser is
any function from text to a finite tree or an error; the allowlists are arbitrary sets.
`PolicyMeaning` states the policy as rules, apart from the order in which the checker looks and
with its own description of what a tree spells, and proves the checks equal to them. `PolicyTrees`
decides whole calls by name. `Nodes` is an independent description of the fields of a tree and of
every text body that its definitions lead to, and soundness, completeness, order, monotony and
nesting are stated with it. `PolicyReadings` and `PolicySchedules` say exactly when the visiting
order decides. `PolicyChecker` is the imperative checker, in which all copies share one map,
proved to compute the same.

**Inside a batch** (`SizeCheck`, `Execution`, `Dependencies`). The size check in machine integers,
the names a statement may call, row and byte accounting, the loop over the statements, and the
recursive dependency query against reachability and against what a cascade drop can remove.

**The session table** (`Sessions`, `SessionRuns`, `SessionCapacity`, `SessionOverflow`,
`SessionServer`). All interleavings of the critical sections with the slow operations that run
outside the mutex, the exact conditions for exceeding the bound, and the handlers in the source's
own form, each critical section of which is one step.

## Model

| member | source | states |
|---|---|---|
| Gateway.EnterExact | internal/engine/bootstrap.go:121-128 | in three-valued logic, `enter` returns exactly if the row exists, is not locked by another, has the generation asked for, and is active with no token given or initializing with its own token given |
| Gateway.FinishExact | internal/engine/bootstrap.go:135-137 | `finish` works exactly for the holder of the token of an initializing row, and leaves it active, same generation, token gone |
| Gateway.PlainNegationAdmits | internal/engine/bootstrap.go:127 | raising on NOT instead of IS NOT TRUE would admit exactly one more case: any token, for an initializing row whose own token is NULL |
| ProtocolSteps.StepKeeps | internal/engine/lifecycle.go:103-213 | every step of every call keeps the invariant: token present exactly while initializing, generation at least 1, row, schema and role exist together, a workspace holds only statements of its own generation, an initializing one is empty, every open transaction still agrees with the islet it locked |
| ProtocolSteps.Reachable | internal/engine/lifecycle.go:30-74 | hence so does every run |
| Serial.Refines | internal/engine/execute.go:59-129 | each step commits nothing, or performs exactly one operation of the sequential specification on the committed registry |
| Serial.RunRefines | internal/engine/execute.go:59-129 | what a run has committed is what its operations do one after the other, in commit order |
| Serial.Serializable | internal/engine/lifecycle.go:103-213 | the same from the empty registry: every interleaving is serialisable |
| Serial.EffectIsAskedFor | internal/engine/execute.go:29-38 | the operation a step performs is one its call asked for: the islet and generation of its handle, and of a batch all statements in order and no others |
| Serial.CommitRefines | internal/engine/connection.go:25-36 | whatever the client is told, the commit of a transaction performs one whole operation |
| ProtocolRuns.RowsMoveForward | internal/engine/lifecycle.go:150-159 | with ranks initializing, active, failed, the pair (generation, rank) of a committed row never decreases in any run, and a deleted islet never comes back |
| ProtocolRuns.OneTokenPerGeneration | internal/engine/lifecycle.go:140-150 | wherever in a run a generation still has a token, it is the token it has always had |
| ProtocolRuns.OneIsletAtATime | internal/engine/lifecycle.go:150-159 | a step leaves every islet but the one its operation names as it was |
| ProtocolRuns.GenerationGrowsExactlyWhenEmptied | internal/engine/lifecycle.go:131-150 | the generation of an islet changes exactly when a reset, recovery or reinitialisation commits, then by one, and the workspace is then empty |
| ProtocolRuns.CleanupAllOrNothing | internal/engine/lifecycle.go:123-163 | a lifecycle transaction that commits empties the islet at the next generation or removes it, or marks the row failed with workspace and generation as before |
| ProtocolRuns.InitialisationIsAtomic | internal/engine/lifecycle.go:231-255 | an initializing islet is empty, and the only step that makes it active within its generation commits all statements of its initialisation |
| ProtocolRuns.SettledOnce | internal/engine/lifecycle.go:257-268 | after an initialisation has committed, or has been recorded as failed, no later step of any run finishes that generation or records its failure: the late update overwrites neither a real commit nor a later reset, and fences the generation for good |
| ProtocolRuns.EndedGenerationIsFenced | internal/engine/bootstrap.go:121-128 | after a reset, recovery, reinitialisation or deletion of a generation has committed, nothing with a handle of that generation or an older one is ever committed in the islet |
| ProtocolOutcomes.BatchRunsOnce | internal/engine/execute.go:98-128 | over a whole run the statements of a batch are committed not at all or once, all together, in the islet and generation of its handle |
| ProtocolOutcomes.BatchOutcomesAreHonest | internal/engine/execute.go:95-128 | success: committed once; a refusal: never committed, and no trace in any workspace; both remain possible only for an unknown outcome or a crashed caller |
| ProtocolOutcomes.OvertakenBatchNeverCommits | internal/engine/execute.go:29-38 | if the generation a batch looked up ends before the batch passes `enter`, no continuation of the run commits any of it |
| ProtocolHonesty.LifecycleOutcomesAreHonest | internal/engine/lifecycle.go:103-278 | at the end of any run, for a call that creates, resets, recovers, reinitialises or deletes: success means its operation and its initialisation were committed; an error of the last read, that both were as well; any other refusal, nothing or the marking of the row; a failed initialisation, the operation and at most the batch (its reply lost) or the record of the failure, never both; and only what the call asked for |
| ProtocolHandles.SuccessReturns | internal/engine/lifecycle.go:150-155 | a call that succeeds without an initialisation returns the handle of the generation it has made, active; with one, a handle of that generation or a later one |
| ProtocolHandles.ActiveHandleTells | internal/engine/lifecycle.go:257-277 | an initialising call that got past its size check and whose error is not that of the initialisation has performed both its operations if and only if the handle it returns is active, and then it is the handle of the new generation |
| ProtocolReopening.LastRead | internal/engine/lifecycle.go:271-277 | the last read of an initialising call succeeds exactly if the islet is still there, with its generation and state at that moment; if the generation is a later one, nothing in the workspace is of the one initialised; if the islet is gone, the error comes with the active handle of the new generation |
| ProtocolReopening.CommittedButNotFound | internal/engine/lifecycle.go:271-275 | a run, for any batch, in which the call is told that the islet is not found although its creation and its initialisation were committed: another call deletes the islet before the last read |
| ProtocolReopening.LaterGenerationReturned | internal/engine/lifecycle.go:271-277 | a run in which the call succeeds with the handle of a generation it has not made, and of an empty workspace: another call resets the islet before the last read |
| ProtocolReplies.ReplyDecides | internal/engine/connection.go:25-36 | from every reachable state, an answer to a commit can come exactly if the server has ended the transaction; then a batch succeeds exactly if it has been committed and is refused exactly if not, a lifecycle call succeeds or goes on to its initialisation exactly if more than the marking of its row was committed, and an initialisation goes on to the last read or to the late update |
| ProtocolReplies.LostReplyDecides | internal/engine/connection.go:31-35 | a reply can be lost at any moment; the outcome is then unknown, or that of an initialisation that owes its late update |
| ProtocolReplies.ErrorDecides | internal/engine/lifecycle.go:247-268 | an error can come at any moment outside a commit; it ends the call with that error, except that one in the initialisation leaves the late update to be sent first, and the call then ends as a failed initialisation |
| ProtocolReplies.InitialLookupDecides | internal/engine/lifecycle.go:248-255 | an initialisation gets past its lookup exactly if the islet is still at its generation, and takes the token of the row along |
| ProtocolReplies.LateUpdateDecides | internal/engine/lifecycle.go:257-261 | the late update can always be sent, and applied once nobody holds the islet; a row that is initializing at the generation in question is then failed, without a token and empty, and in every other case nothing committed changes |
| Vetting.EveryStatementHasPassed | internal/engine/execute.go:98-109 | every statement in every workspace of every run has passed `Check` under the names that the statements before it had brought about |
| Vetting.NoCatalogRoutineIsCalled | internal/engine/execute.go:131-158 | so no workspace of any run holds a statement that calls or defines a catalog routine outside the allowlist, at any depth, whatever was created, replaced or renamed before it |
| Vetting.NoForeignSchemaIsCalled | internal/policy/policy.go:168-170 | nor one that calls a function under a qualifier other than the schema of the very islet or pg_catalog |
| ProtocolRecovery.LookupDecides | internal/engine/execute.go:29-36 | a batch gets past its lookup exactly if the islet exists at the handle's generation; not found and stale mean just that |
| ProtocolRecovery.EnterDecides | internal/engine/bootstrap.go:121-128 | a batch gets through `enter` exactly if the islet exists, nobody holds it, and it is active at the handle's generation; each refusal means exactly one of not there, held, superseded, failed, initializing |
| ProtocolRecovery.LockDecides | internal/engine/lifecycle.go:82-121 | a lifecycle call gets the row exactly if it exists, is free and current, and is not initializing unless recovered; each refusal means exactly one of these; deleting what does not exist succeeds |
| ProtocolRecovery.EndedHandleStaysOut | internal/engine/lifecycle.go:82-93 | once the generation of a handle has ended, no call with that handle opens a transaction in any continuation |
| ProtocolRecovery.FreeIsManaged | internal/engine/lifecycle.go:95-213 | from every reachable state, Reset, Recover, Reinitialize and Delete of a free islet whose row lets them go ahead get their answer in a run of their own: the islet is gone, or empty at the next generation and active or initializing with a token, no other islet has changed, and the call has succeeded or is at its initialisation |
| ProtocolRecovery.StumblingMarks | internal/engine/lifecycle.go:123-138 | wherever such a cleanup fails (dependency check, drop, rebuild), the row is marked failed at the same generation with the workspace as it was, nothing else changes, and the call ends in the lifecycle error |
| ProtocolRecovery.EveryIsletCanBeRecovered | internal/engine/lifecycle.go:99-156 | from every reachable state, whoever holds the islet and whatever went wrong before, some continuation, in which the dependency check is clear, has a Recover succeed and leave it empty and active at the next generation (if a bigint is left for it) |
| ProtocolSuccess.BatchSucceeds | internal/engine/execute.go:59-129 | from every reachable state, a batch with the handle of a free active islet has a run of its own in which it succeeds: the workspace is the old one followed by its statements in order, the row as before, and no other islet changed |
| ProtocolSuccess.InitialisationSucceeds | internal/engine/lifecycle.go:247-278 | the same for an initialisation wherever the islet it is about waits for it |
| ProtocolSuccess.ReinitializeSucceeds | internal/engine/lifecycle.go:231-245 | Reinitialize of a free islet that is not initializing has a run of its own in which it succeeds and leaves, active at the next generation, exactly the statements of the initialisation |
| ProtocolSuccess.CreationCommits | internal/engine/lifecycle.go:16-75 | the same for Create under a new identifier, up to the answer: a new islet, empty at generation 1, active or initializing with a token |
| ProtocolSuccess.CreateSucceeds | internal/engine/lifecycle.go:215-229 | CreateWithInitialization under a new identifier has a run of its own in which it succeeds and leaves exactly the statements of the initialisation in the new islet |
| Manager.Database.Others | internal/engine/bootstrap.go:123 | whatever the other calls and the server do in between, an open transaction keeps its work, or has been ended by the server |
| Manager.Database.Commit | internal/engine/connection.go:25-36 | the call gets the answer that fits what the server has done to the transaction, or the reply is lost |
| Manager.Database.RunStatements | internal/engine/execute.go:98-120 | the statements run in order, each only after it has passed the policy on the names its transaction sees; complete results of all, or of those before the one that failed, with its partial result if it was sent, and never more rows than the limit |
| Manager.Database.Execute | internal/engine/execute.go:59-129 | connect, enter, statements, finish when initialising, commit: where the statements have been committed, or may have been, all results come back; an error at a statement means that the transaction is given up |
| Manager.Database.Conclude | internal/engine/execute.go:122-128 | the end of it: a batch is over, an initialisation has committed or owes its late update |
| Manager.Database.Batch | internal/engine/execute.go:21-39 | refused for its size exactly if it exceeds a limit, and then the state is untouched; success and an unknown outcome come with all results; an error at statement i comes with i complete results, and nothing has been committed |
| Manager.Database.InitializeIslet | internal/engine/lifecycle.go:247-278 | lookup, batch under the token, the late update when that goes wrong, and the last read: it ends in success, in the error of the last read, or in that of the initialisation, and in the first two the statements were committed |
| Manager.Database.Cleanup | internal/engine/lifecycle.go:127-153 | from the savepoint on: cleaned and updated, or rolled back to the savepoint and marked |
| Manager.Database.Manage | internal/engine/lifecycle.go:103-245 | `reset`, `Delete` and `Reinitialize`: an oversize initialisation is refused with the handle it was given, before any row or workspace changes; otherwise the outcome keeps what it promises about the call's transactions, and success and the error of the last read come with the active handle of the next generation |
| Manager.Database.Create | internal/engine/lifecycle.go:16-75 | the same for `Create` and `CreateWithInitialization`, where an oversize initialisation comes with an empty handle |
| Manager.CanFinish | internal/engine/bootstrap.go:132-138 | a transaction that entered with a token and ran its batch can always finish: the lock it holds makes the second check succeed |
| SizeCheck.CheckSize | internal/engine/execute.go:41-57 | in 64-bit arithmetic without overflow, accepts exactly the batches whose count and total length are within the limits |
| PolicyMeaning.OptionsExact | internal/policy/policy.go:201-219 | the options pass exactly if there is no SET or SUPPORT and every AS is one text; the language and text are those of the last LANGUAGE and the last AS |
| PolicyMeaning.NamesExact | internal/policy/policy.go:237-257 | a name is read as exactly the texts that its nodes hold, one for each element and in their order, where anything that is no String node reads as empty |
| PolicyMeaning.DefineMeaning | internal/policy/policy.go:183-234 | what `definition` accepts by itself: a local name, legal options, SQL, and a body; and what it defines |
| PolicyMeaning.CallExact | internal/policy/policy.go:156-181 | a call is accepted exactly if it is unqualified or qualified by the islet's schema or pg_catalog, and names a permitted local function (not under pg_catalog) or an allowlisted one (not under the schema) |
| PolicySoundness.DefineExact | internal/policy/policy.go:183-235 | a definition is accepted exactly if its name is local and no catalog routine's, its options are legal, the last LANGUAGE is sql, it has a body, and a text body parses, is not nested too deep and passes with the name permitted |
| PolicySoundness.WalkSound | internal/policy/policy.go:70-154 | a successful walk has grown the names by exactly the functions defined, never over a catalog name, and every node is allowed under the names there are then |
| PolicySoundness.CheckSound | internal/policy/policy.go:36-68 | under every visiting order and for every parser: an accepted text is one statement, and every node of it and of every text body reached from it is an allowed statement, object kind, alteration and persistence, and every call resolves to the allowlist, an initially permitted name or a name defined in that closure |
| PolicySoundness.CatalogNamesStayOut | internal/policy/policy.go:192-194 | a name the map marks as a catalog routine, outside the allowlist, is neither called nor defined anywhere in an accepted statement |
| PolicyOrder.CheckComplete | internal/policy/policy.go:70-154 | a single statement whose nodes are all allowed under the initial names, and which defines no catalog name, is accepted under every visiting order |
| PolicyOrder.CheckExactWithoutDefinitions | internal/policy/policy.go:79-151 | without function definitions, accepted exactly if every node is allowed; so the order has no say |
| PolicyTrees.SelectExact | internal/policy/policy.go:156-181 | `SELECT` of a call whose name has any parts is accepted, in every visiting order, exactly if the rules allow a call by those parts |
| PolicyTrees.QualifiedCallsExact | internal/policy/policy.go:156-181 | a call of f under pg_catalog is accepted exactly if f is in the allowlist, under the islet's schema exactly if f is a permitted local name, under any other qualifier never |
| PolicyOrder.OrderlyIgnoresOrder | internal/policy/policy.go:79-151 | a shape that is enough, told without the names: where no definition stands beside a call or another definition in one object, all visiting orders decide alike |
| PolicySchedules.AlwaysAccepted | internal/policy/policy.go:79-151 | a statement is accepted under every visiting order exactly if the worst reading accepts it: each entry of an object under the names on arrival there |
| PolicySchedules.SometimesAccepted | internal/policy/policy.go:79-151 | a statement is accepted under some visiting order exactly if the best reading accepts it: the entries of an object in rounds, each round permitting what it defines |
| PolicySchedules.DecisionIgnoresOrder | internal/policy/policy_test.go:207-224 | the exact condition of the determinism that the test asks for on any SQL: all checks of a statement decide alike if and only if the worst reading accepts it or the best one refuses it |
| PolicyExample.DecidedByOrder | internal/policy/policy.go:79-151 | for the tree of a definition in whose SQL body the function is defined that a parameter's default calls: `Check` accepts exactly under the orders that come to the body before the parameters |
| PolicyExample.OrderCanDecide | internal/policy/policy_test.go:207-224 | so two checks of that one text disagree: the determinism fails there |
| PolicyOrder.CheckMonotone | internal/policy/policy.go:172-196 | under a fixed order, permitting more names never turns acceptance into rejection |
| PolicyOrder.DefinitionPassesItsOwnName | internal/policy/policy.go:133-137 | a definition that was accepted passes the later check of its own `funcname` field, whatever was defined in between |
| PolicyDepth.NestingExact | internal/policy/policy.go:45-48 | under the limit of 16 a statement is accepted if and only if it is accepted under a larger limit and its text bodies nest at most 16 deep; `sql_body` bodies cost nothing |
| PolicyDepth.BodiesNestedExactly | internal/policy/policy_test.go:227-253 | an otherwise legal chain of n text bodies is accepted exactly if n is at most 16 |
| PolicyChecker.WalkTree | internal/policy/policy.go:70-154 | with one map shared by all copies of the checker, the walk ends with the error and the map of the specification |
| PolicyChecker.VisitChild | internal/policy/policy.go:79-150 | the same for one entry or element |
| PolicyChecker.DefineInto | internal/policy/policy.go:183-235 | the same for a definition, whose increment of the depth stays private |
| PolicyChecker.ReadOptions | internal/policy/policy.go:201-219 | the loop over the options gives the last LANGUAGE and the last AS, or the first violation |
| PolicyChecker.ParseInto | internal/policy/policy.go:45-68 | the same for a text |
| PolicyChecker.CheckStatement | internal/policy/policy.go:36-43 | decides as the specification does, and leaves the caller's map alone |
| Execution.CollectLocalFunctions | internal/engine/execute.go:131-158 | a name is permitted exactly if the schema has a function of that name and the catalog has none, and marked exactly if the catalog has one |
| Execution.CatalogRoutinesAreNeverCalled | internal/engine/execute.go:98-106 | whatever functions the schema holds when a statement's turn comes, no accepted statement calls or defines a catalog routine outside the allowlist |
| Execution.RunQuery | internal/engine/result.go:11-68 | columns, rows and flags of the result, and what is left of both budgets, in every one of the four ways a query ends |
| Execution.QueryExact | internal/engine/result.go:24-63 | a query without server error completes exactly if its rows are no more than the rows left, and its values, the bytes of their texts, the bytes of its column names and 4 per column are together no more than the bytes left |
| Execution.SumsPlain | internal/engine/result.go:24-37 | what the loops add up over any replies is just that: the number of rows; and the number of values, the length of all their texts put together (NULL has none), the length of all column names put together, and 4 per column |
| Execution.RunStatement | internal/engine/execute.go:98-120 | one turn: catalog query, policy, query; the error with its statement index, and the partial result that comes with it |
| Execution.RunBatch | internal/engine/execute.go:95-128 | absent other errors the result limit is avoided if and only if all rows are at most MaxRows, and all values, the bytes of their texts and of the column names, and 4 per column are together at most MaxResultBytes; what is handed back never exceeds either limit, whatever the error; a failure at statement i brings i complete results, and a partial one more exactly if statement i was sent |
| Dependencies.EvaluateExact | internal/engine/dependencies.go:31-36 | evaluation by working tables, from any intermediate point, ends with the reachable objects |
| Dependencies.AffectedExact | internal/engine/dependencies.go:28-36 | on any finite graph, cycles included, the query computes exactly what is reachable from the schema |
| Dependencies.ClearMeansContained | internal/engine/dependencies.go:14-40 | after a clear answer, every object that a cascade drop of the schema removes lies in that schema or in one named pg, any character, toast and so on, or lies in none and is of a class that the check lists as local |
| Dependencies.ClearExactlyWhenContained | internal/engine/dependencies.go:14-40 | the answer is clear if and only if that is so of every cascade: nothing is refused without cause |
| Dependencies.OtherIsletsAreSafe | internal/engine/dependencies.go:28-40 | after a clear answer for the schema of one islet, no cascade drop of it removes anything in the schema of another |
| Dependencies.RefusalNamesCulprit | internal/engine/dependencies.go:15-25 | the object named in a refusal can be exactly those that do not belong to the islet and that some cascade drop would remove |
| SessionRuns.OwnerStep | examples/web/sessions.go:108-111 | each step hands an islet over without letting go of it |
| SessionRuns.NoIsletIsLost | examples/web/sessions.go:79-183 | in every run, an islet that was created successfully and is not deleted is owned by the table, by the start that created it, or by a cleanup |
| SessionRuns.CapacityStep | examples/web/sessions.go:79-94 | each step keeps the account of reservations and sessions |
| SessionRuns.CapacityHolds | examples/web/sessions.go:79-183 | the table never exceeds 32 sessions plus those a failed cleanup has put back, so never 32 while none has; `pending` counts the open reservations exactly |
| SessionRuns.CleanupTakesExactly | examples/web/sessions.go:161-172 | a cleanup leaves a session where it is exactly if it was used within the last 1800 seconds and not all are to go, and takes exactly the others into its own hands |
| SessionCapacity.BoundIsPassed | examples/web/sessions.go:161-183 | after any run with a load (sessions and starts that will enter one) of at most 32, a step takes the load past 32 exactly if it puts a session back when the load is 32 |
| SessionCapacity.OverflowExactly | examples/web/sessions.go:79-183 | after any run, the table can come to hold more than 32 with nothing put back from then on, if and only if the load is more than 32 now |
| SessionOverflow.ReachedExactly | examples/web/sessions.go:79-183 | n sessions after k put-backs can be reached if and only if n is at most 32 + k |
| SessionServer.Server.Others | examples/web/sessions.go:79-183 | while the mutex is free any steps of the others keep ownership and account, and leave this handler where it is |
| SessionServer.Server.Touch | examples/web/sessions.go:32-42 | a step that finds exactly a live session and renews it; nothing else changes |
| SessionServer.Server.Reserve | examples/web/sessions.go:79-88 | a step that reserves exactly if sessions and open reservations are fewer than 32 |
| SessionServer.Server.Release | examples/web/sessions.go:90-94 | a step that gives one reservation back; the counter never gets negative |
| SessionServer.Server.Insert | examples/web/sessions.go:108-111 | a step that enters the created islet under the token of its start |
| SessionServer.Server.Forget | examples/web/sessions.go:130-132 | a step that deletes the entry of an islet that has been removed |
| SessionServer.Server.Split | examples/web/sessions.go:165-170 | deleting while ranging in any order splits the table into exactly the expired sessions and the others |
| SessionServer.Server.Take | examples/web/sessions.go:162-172 | the same as a step |
| SessionServer.Server.Current | examples/web/sessions.go:25-57 | renews and answers for exactly a session that is live now; the islet may still fail to open |
| SessionServer.Server.Start | examples/web/sessions.go:63-115 | a request whose session was live at the first test joins it, or is refused by the second test or the opening, and reserves nothing; any other request has its reservation given back on every path and holds nothing in the end |
| SessionServer.Server.End | examples/web/sessions.go:117-136 | refused without any change exactly if the session is not live; otherwise renewed, and it may fail to open, fail to be removed, or be removed and then forgotten; nothing is held in the end |
| SessionServer.Server.Cleanup | examples/web/sessions.go:161-186 | everything taken out has been removed or put back in the end, and at most as many failures as were taken |

## Where the model follows the code

- The decision of the policy checker is not independent of Go's map order, although
  `internal/policy/policy_test.go:207-224` asks for it on any SQL. `CREATE FUNCTION f(n int DEFAULT g())
  RETURNS int LANGUAGE sql BEGIN ATOMIC CREATE FUNCTION g() RETURNS int LANGUAGE sql RETURN 1; END` is
  accepted when the body is visited before the parameters and refused otherwise. OrderCanDecide shows
  it, and DecisionIgnoresOrder gives the exact condition.
- The table of sessions can exceed 32, by one for each session put back while the load is 32.
- The late update of an initialisation is a statement of its own outside the failed transaction. The
  server can apply it after a commit whose reply was lost, and after the client has given up waiting
  for it or has gone; SettledOnce says why it then changes nothing it should not.
- After an initialisation has committed, the islet is read once more without a lock. If that read
  fails, the call returns its plain error, not that of the initialisation, with everything committed;
  if another call has reset the islet, the handle is of the later generation. LastRead says exactly
  when, and ActiveHandleTells how a caller can tell.
- Between the two tests of `start` a cleanup or the clock can end the session, and `start` then answers
  that it has expired instead of opening a new one.
- A result limit that is met by the columns alone returns the bare error, without a statement
  index (`internal/engine/result.go:60-63`); one met by a row carries it. RunBatch distinguishes them.
- `NOT LIKE 'pg_toast%'` treats the underscore as a wildcard, so a schema called `pgxtoast...` counts as
  a toast schema; the exemption is modelled that way.
- `parse` looks only at the last AS option of a definition; CheckSound speaks of that body.
- RenameStmt on a function is an allowed statement, so a schema may come to hold a function named like
  a catalog routine. What is proved is that such a name is never permitted to be called.
- `COALESCE(init_token,'')` turns a NULL token into an empty one, which `enter` then receives as a
  non-null argument; lookups during an initialisation carry exactly that.
- A generation that has reached the largest bigint makes a reset fail.
- The state `deleting`, which the table's CHECK admits, is never reached.

## Left out

- OrderlyIgnoresOrder: a shape that is enough and not necessary; the exact condition is DecisionIgnoresOrder.
- DefinitionPassesItsOwnName: asks that the islet's schema is not pg_catalog; callers always pass a name that starts with `pgislet_i_` (`internal/engine/lifecycle.go:41`).
- CapacityHolds: the bound grows with the sessions put back by failed cleanups, because the code's does; ReachedExactly shows that it is the best there is.
- PostgreSQL itself: roles, privileges, grants and the check of `session_user` are taken as given, so the user's SQL touches its own schema and never the registry.
- What a statement does: a workspace is the log of statements executed in it, not the tables they make.
- Timeouts and contexts: an error, an abort or a lost reply may happen at any point instead.
- Manager.Database.RunStatements: what the server answers is arbitrary; when exactly the result limit is met is in `Execution` (RunBatch).
- That a waiting late update is eventually run, and every other statement about progress over time.
- Passwords, timestamps, and `Open` as a call of its own, which is one read.
- The grammar and the parser behind `pgquery`: an arbitrary function that returns finite trees.
- The members of the allowlists: arbitrary sets.
- The bodies of error messages, and which error of the server `classify` recognises: a flag of the error.
- Budgets are unbounded integers; the original's are Go ints that only decrease from their limits.
- `Config.normalized`, identifier and literal quoting, `BuildDSN`, bootstrap's DDL: easy members or foreign escaping.
- Cookies, HTTP handlers and the clean-up of an islet whose creation failed in the web example: input and output.
