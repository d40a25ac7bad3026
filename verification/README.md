# SimpleOrm: a verified model of the write engine, the loaders and two transformations

This project models the hardest parts of SimpleOrm in Dafny and proves what they are for. It
stands beside the Go and C# sources, is checked with `dafny verify dfyconfig.toml`, and uses no
library.

**The tracked session's write engine (Go).** A session is a value `Mem`: instances with their
mapped fields, an identity map with snapshots and a registration counter, and the positions of the
clock and the GUID source. The database is any function from a state and a statement to a state
and a reply, so every theorem holds for every database. One call, a flush or the send of an
explicit batch, is a machine (`Calls`): each operation is prepared, cut into messages by three
rules, sent, and completed; a journal of undo records interleaves captures at preparation with
drops at completion.

- `Values`, `Entities`, `IdentityMap`, `Tracking`: keys and their order, entity maps, the map
  from instances and keys to entries, and the tracker's sorted arrays that implement it in place.
- `Writes`, `Calls`, `Frames`, `BatchCalls`: prepare, execute and complete; the plan; what each
  step can touch; and the imperative call and journal, proved equal to the machine.
- `Statements`, `Results`, `Tracing`, `Settling`: what each operation binds and when it is refused,
  said of the entity map alone; what a result leaves; what a call has the database do; and that a call
  which succeeds leaves nothing unwritten.
- `Undoing`, `Restoring`, `KeyRules`, `Strays`, `Rollbacks`, `Keeping`: a failed call puts the session
  back, and every call leaves an identity map the next can start from.
- `Commuting`, `Refinement`, `Freeing`, `RunPlans`, `Batching`: batching refines no batching,
  exactly when, and with exactly which messages.
- `Messages`, `Forming`, `SharpPlans`: the message plan over the facts its rules read, its
  optimality, what every message holds, and the C# planner beside the Go one.
- `Ordering`, `Reachability`, `Components`, `Ranking`, `Discovery`, `Phases`, `Planning`,
  `FlushPlans`, `Arrivals`, `Flushing`: Tarjan's components and the type ranks, the instance
  order, the plan of a flush, the keys that flow, and the flush from schedule to schedule.
- `Schedule`, `Holding`, `Persisting`: cancelling as a least fixpoint, when it is also the greatest, and
  the persist cascade.

**The loading engines.** `Relations` defines in one line each what an include loads; `JoinFold`
folds left-joined rows, `BatchLoading` queries key lists in chunks or one subselect, on two key paths,
all are proved to meet the definition, and `Listing` chooses between them. `Paging` proves when a
paged root is deterministic. `DirtyUpdates` proves the dirty-column update a refinement of the whole-row
one, and that either stores the instance.

**Two transformations (C#).** `Rendering` gives rendered SQL a three-valued meaning (`<in
predicate>` and `<exists predicate>`, sections 8.4 and 8.8 of ISO/IEC 9075:1992) and proves the
rewriting of composite membership; `Selecting` says what a criteria tree selects without SQL, and that
every rendering selects it; `TableOrder` is the order new tables are created in.

Hypotheses that recur: *fresh keys* means that a key the database generates is set and not yet
tracked, that every key a statement registers is set, and that a GUID still to be handed out is no
tracked key; a *ready* caller is one whose inserted instances, where tracked at all, hold their
registered key, and whose written instances, where tracked under the key they hold, are so under a set
one. Statement by statement the rollback needs neither; batching needs fresh keys and the second half of
readiness, and the identity map needs nothing.

## Model

| member | source | states |
|---|---|---|
| IdentityMap.RegisterKeepsMap | go/orm/tracker.go:69-87 | After a register the instance and the key find one new entry, both indexes hold the same entries one to one, and no other instance changed its entry except the one that lost the key |
| IdentityMap.ForgetKeepsMap | go/orm/tracker.go:124-131 | Forgetting keeps the indexes in step exactly when the pointer holds that entry or none; afterwards it holds none, and no other pointer changed |
| IdentityMap.RestoreKeepsMapIff | go/orm/tracker.go:103-112 | Putting an entry back keeps the indexes in step if and only if its pointer does not hold an entry under another key |
| IdentityMap.RestoreKeepsMap | go/orm/tracker.go:103-112 | Restoring is safe when the pointer is free, holds the entry, or a newer one under the same key |
| Tracking.Tracker.Search | go/orm/tracker.go:50-55 | Binary search in the sorted array answers the insertion point of the key, and found exactly when the abstract map holds the key |
| Tracking.Tracker.FindEntry | go/orm/tracker.go:57-63 | Looking up by type and key agrees with the abstract map |
| Tracking.Tracker.Track | go/orm/tracker.go:69-87 | The array form of register: the new state is the abstract register of the old one, every array still sorted by key |
| Tracking.Tracker.ForgetEntry | go/orm/tracker.go:124-131 | The array form of forget: the new state is the abstract forget of the old one |
| Tracking.Tracker.PutBack | go/orm/tracker.go:103-112 | The array form of restore: the new state is the abstract restore of the old one; an entry already filed under its key while its pointer holds another one is listed twice |
| Tracking.Tracker.AddEntry | go/orm/tracker.go:89-101 | Inserting at the searched point files the entry in both indexes and keeps the array sorted, unless it was there already |
| Tracking.Tracker.AddFresh | go/orm/tracker.go:79-86 | A new entry gets a number past every one handed out before |
| Tracking.FoundAtInsertionPoint | go/orm/tracker.go:50-55 | In a sorted array a key is present exactly when it stands at its insertion point, and then nowhere else |
| Values.CompareValOrders | go/orm/internal/core/compare_values.go:25-90 | A null comes before every value, and values of one type are ordered upwards, false before true |
| Values.CompareIsLexicographic | go/orm/internal/core/key_tuple.go:34-41 | Keys compare by the first part in which they differ |
| Writes.WritableColumnsAre | go/orm/db_hooks.go:98-103 | The columns an update may write are exactly the mapped ones that are no key part, no version and no generated value, each once |
| Statements.InsertRefuses | go/orm/db_crud.go:348-390 | An insert is refused for the first of: a read-only type, a navigation whose target the foreign keys do not name, a key another instance or another entry has, a clock that fails; and for nothing else |
| Statements.InsertBindsRow | go/orm/db_crud.go:388-410 | An insert binds every property its type maps and the database does not generate, each once, with the instance's value, a drawn client GUID and a filled created-at included, and nothing else |
| Statements.UpdateRefuses | go/orm/db_crud.go:476-545 | An update is refused for the first of its faults, and issues nothing exactly when the tracked instance holds what its snapshot has in every updatable property, the stamp aside |
| Statements.UpdateBindsRow | go/orm/db_crud.go:500-564 | An update names the instance's key and checks its version; it binds, each once, exactly the updatable properties that differ from the snapshot and the stamp it has just taken, or of an untracked instance every updatable property |
| Statements.ListRefuses | go/orm/db_crud.go:652-697 | A column list is refused for being empty, or for the first property that is unmapped, never written or repeated, and for nothing else |
| Statements.ListedUpdateBindsRow | go/orm/db_crud.go:600-640 | An update of listed columns binds exactly those and the stamp, each once, with the instance's values |
| Statements.DeleteBindsRow | go/orm/db_crud.go:845-880 | A delete removes the row of the instance's key, its version checked; of a soft-deleting type it raises the flag and takes the stamp, and binds those two alone |
| Statements.KeyDeleteBindsRow | go/orm/db_crud.go:767-815 | A delete by key checks no version, refuses what it could not bump, and of a soft-deleting type raises the flag of the row and stamps it |
| Statements.DisagreeIff | go/orm/db_crud.go:901-935 | The navigation gate closes exactly when some non-null many-to-one target has a key part the foreign key, where it is written, does not hold |
| Results.InsertCompletes | go/orm/db_crud.go:410-436 | An insert passes unless it broke or brought no generated key; the key is then the database's, and the instance is tracked under it with a snapshot of itself as it stands |
| Results.UpdateCompletes | go/orm/db_crud.go:730-756 | An update passes exactly when it counted a row; the version moves on by one and no other property changes |
| Results.DeleteCompletes | go/orm/db_crud.go:880-898 | A delete passes exactly when it counted a row, and drops the entry it was prepared with |
| Results.KeyDeleteCompletes | go/orm/db_write.go:349-358 | A delete by key drops whatever entry holds the key and no other |
| Results.KeyNowIs | go/orm/batching.go:115-142 | The key rule 1 compares is the operation's own: complete, and not unset where the type's keys are generated |
| Results.ArgsAreBound | go/orm/db_crud.go:566-575 | A statement counts one parameter for each value it binds: those it sets, its key, the version it checks |
| Results.ResultIsRead | go/orm/db_write.go:66-75 | A result is read for a generated key, and for a row count where the dialect reports it by a select |
| Writes.Dirty | go/orm/db_crud.go:528-536 | The written columns of a tracked update are exactly the writable ones whose value differs from the snapshot, the update stamp aside |
| Frames.PrepareOnly | go/orm/db_crud.go:348-439 | Preparing an operation leaves the identity map, every other instance and all but the journaled fields of its own as they were |
| Frames.CompleteOnly | go/orm/db_write.go:335-367 | Completing a statement touches its own instance only, in its journaled fields only, and keeps every key it did not generate |
| Frames.FailedCompleteIsClean | go/orm/db_crud.go:730-756 | A completion that fails its check has changed nothing |
| Frames.FlowOnly | go/orm/flush.go:568-600 | The key flow of an insert changes the foreign keys that its references and its cascade links write, and nothing else |
| BatchCalls.BatchCall.SendBefore | go/orm/batching.go:154-178 | The class method does rule 1 exactly: it sends the message in progress if and only if the operation depends on it |
| BatchCalls.BatchCall.MustCut | go/orm/batching.go:158-174 | The sets the message keeps answer rule 1: same instance, a parent whose key is generated in it, or the same set key |
| BatchCalls.BatchCall.AddWrite | go/orm/batching.go:184-211 | The class method does rules 2 and 3 exactly, on the counters it keeps |
| BatchCalls.BatchCall.SendMessage | go/orm/batching.go:225-273 | Sending leaves the session, the database, the journal and the next message as completing the statements in order does |
| BatchCalls.BatchCall.SendInOne | go/orm/batching.go:240-259 | In one round trip every statement runs before the first completes, and none completes if one breaks |
| BatchCalls.BatchCall.RunOperation | go/orm/flush.go:490-512 | One operation of the loop: rule 1, key flow, capture, preparation, rules 2 and 3, stopping at the first failure |
| BatchCalls.BatchCall.FlowAndRecord | go/orm/flush.go:498-501 | The keys flow before the journal captures the instance |
| BatchCalls.BatchCall.Perform | go/orm/flush.go:60-71 | The whole call with its commit: on success the run of the machine, otherwise that run rolled back, and then the session is as the call found it; either way the next call finds an identity map in step |
| BatchCalls.UndoJournal.RunBack | go/orm/db_write.go:257-265 | The journal runs last in, first out, and is empty afterwards |
| BatchCalls.Depends | go/orm/db_write.go:371-381 | The listed instances are exactly those the operation may read a generated key from |
| Tracing.RunTraces | go/orm/batching.go:225-273 | Every call, whatever its operations, plan and database: the replies it judged are the database's to the statements it sent, in order, each run once; all before the last judged have passed, and unless the call failed all were judged and passed; in one round trip the database has run all that was sent, otherwise exactly what was judged |
| Undoing.RecordKeepsUndoes | go/orm/db_write.go:277-331 | A capture appended at preparation keeps the journal undoing the map, also over whatever the waiting statements will still do to it |
| Undoing.CompleteKeepsUndoes | go/orm/db_write.go:335-367 | An undo appended at completion keeps it too, although captures of later operations stand before it |
| Undoing.UndoesApplies | go/orm/db_write.go:257-265 | A journal that undoes the map brings back its entries and snapshots |
| Restoring.RecordKeepsCore | go/orm/db_write.go:277-331 | The invariant of a call in progress survives a capture that finds no waiting instance under its key |
| Restoring.CompleteKeepsCore | go/orm/db_write.go:335-367 | It survives a completion that drops no waiting instance of the rest |
| Restoring.CoreRestores | go/orm/db_write.go:257-265 | From the invariant, running the journal back restores the session |
| KeyRules.DropsAreQuiet | go/orm/batching.go:145-153 | Rule 1 keeps a completion from dropping the entry of an instance that another waiting statement writes |
| KeyRules.RecordIsQuiet | go/orm/batching.go:145-153 | Rule 1 keeps a capture from finding a waiting statement's instance under its key |
| KeyRules.JoinKeepsKeyed | go/orm/batching.go:198-208 | A statement that joins keeps all keys of the message apart |
| Strays.StaleRefuses | go/orm/tracking.go:260-282 | The write of an instance whose key field was edited refuses, unless it is an insert |
| Strays.CompleteKeepsHeld | go/orm/db_write.go:335-347 | While others complete, such an instance stays as it is or loses its entry; all other written ones stay settled |
| Rollbacks.RollbackRestores | go/orm/db_write.go:246-367 | After any number of operations, failed or not, under any plan, rolling back restores every journaled field of every instance and every entry, snapshot and number of the map; one statement at a time it needs no hypothesis |
| Rollbacks.RunRollbackRestores | go/orm/db_write.go:246-367 | The same at the end of the call: a failing last message or commit |
| Rollbacks.BatchRollbackIsExact | go/orm/batch.go:142-187 | An explicit batch flows no keys, so every instance is back in every field |
| Keeping.RunKeepsMap | go/orm/db_write.go:335-367 | However a call ends, whatever its operations, plan, keys and database: the identity map is in step and numbered, and every key it registered is as wide as its type's |
| Keeping.RollbackKeepsMap | go/orm/db_write.go:257-265 | A call whose rollback restores the session leaves a map that is in step and numbered: undoing hands out no number and forgets none |
| Keeping.Follow | go/orm/tracker.go:69-131 | A completion carried out on the sorted arrays follows the map; each key it looks up or registers has its type's width |
| Orphans.RollbackLeavesOrphan | go/orm/tracker.go:103-112 | A concrete batch that inserts an instance tracked under another key, or under an unset one: all its keys are fresh, and its rollback leaves an entry behind |
| Orphans.CallerWasNotReady | go/orm/db_write.go:277-331 | That batch only fails that an inserted instance holds its registered key, and its variant only that the key is set |
| Collisions.CollidingKeyLeavesOrphan | go/orm/db_write.go:335-347 | A concrete batch in which the database generates a key that a tracked instance holds: all other hypotheses hold, and its rollback leaves an entry behind |
| Commuting.PrepareCommutes | go/orm/batching.go:145-178 | Where rule 1 lets an operation prepare, preparing before or after a waiting statement completes gives the same statement, or the same lack of one, and the same memory |
| Commuting.KeyStaysHeld | go/orm/batching.go:148-153 | A key held by another instance when an operation prepares past a message is still held when the message has completed |
| Freeing.CompleteFrees | go/orm/db_write.go:350-367 | Of the statements on other instances only a delete by its key takes an entry off the map |
| Freeing.DrainFrees | go/orm/db_write.go:335-367 | Over a whole message: an entry whose instance does not hold its key stands exactly while no statement deletes by its key or inserts its instance anew |
| Refinement.SendCatchesUp | go/orm/batching.go:225-273 | Sending the message brings the run in messages to the very state of the run without them |
| Refinement.PreparePastMessage | go/orm/batching.go:154-178 | An operation prepared past a whole message issues what it issues after it |
| Refinement.ProceedStaysAhead | go/orm/batching.go:184-211 | One more operation that nothing waiting unblocks keeps the run in messages ahead by the waiting statements only |
| Batching.BatchingRefinesIff | go/orm/batching.go:154-211 | Of a call that succeeds statement by statement, its keys fresh: under any plan it succeeds if and only if, by the time an operation prepares, a message already sent has freed whatever entry its identity gate would close on; and then database, instances, identity map and snapshots are the same, and the messages sent are the greedy planner's |
| Batching.BatchingRefinesOff | go/orm/batching.go:154-211 | The same without a look at messages: no operation frees an entry that is in a later one's way |
| Batching.NothingFreedIsInTime | go/orm/tracking.go:260-282 | Where nothing frees an entry in an operation's way, the call could not have succeeded with it there |
| Batching.RunIsOptimal | go/orm/batching.go:180-211 | When every operation issues a statement, no order-preserving grouping that obeys rules 1 to 3 and the caps has fewer messages than the call sends |
| Batching.RunConservesAndSeparates | go/orm/batching.go:184-211 | What a call sends are the issued statements in order, in messages that are not empty and obey the rules |
| Divergence.BatchingDiverges | go/orm/batching.go:154-178 | A concrete batch, a delete by the registered key of an edited instance and then its update: it succeeds statement by statement and fails in one message |
| UnsetArguments.UnsetArgumentDiverges | go/orm/batching.go:124-142 | A concrete batch, a delete by an unset key and then one of an untracked instance that holds it: it succeeds statement by statement and fails in one message |
| StaleInserts.StaleInsertDiverges | go/orm/db_crud.go:368-374 | A concrete batch, the insert of an instance tracked under another key and then the update of the instance that holds that key: it succeeds statement by statement and fails in one message |
| UnsetKeys.UnsetKeyDiverges | go/orm/db_crud.go:360-374 | A concrete batch, a delete by an unset key and then the insert of the instance tracked under it, which it holds: all else the refinement asks for holds, it succeeds statement by statement and fails in one message |
| RunPlans.CutsAlike | go/orm/batching.go:154-178 | The message in progress is cut in its own memory exactly when the facts read off the run without batching say so |
| RunPlans.AddFollows | go/orm/batching.go:184-211 | Rules 2 and 3 act on the call as on the planner's indices |
| Messages.EagerIsLazy | go/orm/batching.go:205-211 | Sending a message when full and sending it when the next operation comes form the same messages |
| Messages.MessagesConserveAndSeparate | go/orm/batching.go:184-211 | The planner's messages are the issued statements in order, none empty, each one the rules allow |
| Messages.StartsNewIffIllegal | go/orm/batching.go:184-197 | The rules keep a statement out of a message exactly when the two together would break one |
| Messages.GreedyStaysAhead | go/orm/batching.go:184-211 | The greedy grouping stays ahead of any other the rules allow |
| Messages.PlanIsOptimal | go/orm/batching.go:184-211 | No grouping the rules allow has fewer messages |
| Messages.PlannersAgreeIff | dotnet/src/SimpleOrm/DbBatching.cs:313-336 | A late-sending planner that sees more dependencies forms the same messages exactly when no message of the other holds such a pair |
| SharpPlans.SharpDependsIff | dotnet/src/SimpleOrm/DbBatching.cs:364-394 | The C# planner sees what the Go planner sees and, besides, the second of two deletes by one unset key |
| SharpPlans.PlannersFormSameIff | dotnet/src/SimpleOrm/DbBatching.cs:313-394 | The two planners form the same messages of a call exactly when no message holds two deletes by one unset key |
| SharpPlans.SharpFormsWhatIsSent | dotnet/src/SimpleOrm/DbBatching.cs:313-336 | Where no message holds two deletes by one unset key, the C# planner forms the very messages the Go call sends |
| SharpPlans.PlannersDiffer | dotnet/src/SimpleOrm/DbBatching.cs:207-220 | Two deletes by the key 0 of a type with generated keys: one message in Go, two in C# |
| SharpPlans.GoSendsTogether | go/orm/batch.go:200-206 | The Go call does send those two as one message |
| Forming.RunForms | go/orm/batching.go:184-211 | Whatever the call and however it ends: every message fits both caps, holds an instance once and reads no result after a command; of a call that succeeds they are the issued statements in order |
| Arrivals.BeforeBringsKey | go/orm/batching.go:162-166 | Past rule 1 nothing the operation depends on still waits for its key |
| Arrivals.KeysArriveFirst | go/orm/flush.go:490-512 | In a call that succeeds, an instance not inserted from then on has its final key when an operation that depends on it prepares |
| Arrivals.FlowBringsTargetKey | go/orm/flush.go:572-587 | Whatever becomes of the call: after the key flow a foreign key of a many-to-one navigation to another instance holds that target's key part, where nothing later in the flow writes it |
| Arrivals.FlowLinksSet | go/orm/flush.go:591-598 | The same of a cascade owner's key part |
| Arrivals.FlowedInsertAgrees | go/orm/flush.go:572-600 | A flushed insert whose foreign keys do not overlap is never refused with CRUD-004, in whatever message and after whatever else |
| Arrivals.TargetKeysAreFinal | go/orm/flush.go:568-590 | In a call that succeeds, the foreign keys such an insert binds for a many-to-one target are the target's final key, and those it stores are all bound |
| Arrivals.OwnerKeysAreFinal | go/orm/flush.go:591-598 | The same of a cascade owner, for each foreign key no later cascade writes |
| Flushing.FlushKeysArrive | go/orm/flush.go:490-512 | In every flush that succeeds, under any plan: everything an insert depends on, itself aside, has its final key when the insert prepares |
| Flushing.FlushBindsTargetKeys | go/orm/flush.go:568-590 | So in every such flush the bound foreign keys are the target's final key |
| Flushing.FlushBindsOwnerKeys | go/orm/flush.go:591-598 | And those of a cascade owner, for each foreign key no later cascade writes |
| Phases.PhaseOrderIsUnique | go/orm/flush.go:432-464 | The list, the waits and the tie-break decide a phase's order |
| Phases.PhaseOrderKeeps | go/orm/flush.go:301-350 | A phase's order holds the pending instances, each once and after all those it waits for |
| Phases.OrderPhase | go/orm/flush.go:338-349 | A phase is refused exactly when pending instances wait for one another all the way round, and the refusal names the types of such a circle |
| Flushing.ParentsComeFirst | go/orm/flush.go:301-328 | Of two planned inserts the one that the other references by a many-to-one, or whose cascade of another kind reached it, comes first |
| Flushing.ChildrenGoFirst | go/orm/flush.go:352-378 | Of two planned deletes the child comes first, whichever side's navigation holds the other |
| Flushing.LowerRankGoesFirst | go/orm/flush.go:330-337 | Where an insert waits for none of the rest, the one placed before it has a lower type rank, or the same and was scheduled earlier |
| Flushing.HigherRankGoesFirst | go/orm/flush.go:380-387 | Of deletes it is the higher rank, or the same and the earlier scheduled |
| Flushing.UpdatesGoByRank | go/orm/flush.go:113-119 | The dirty go by type rank, and of one rank in the order they were registered |
| Planning.LinksAreCascades | go/orm/unit_of_work.go:56-60 | A link is a cascade that reached the insert: its owner, with the relationship's kind and foreign keys |
| Planning.InsertDependencies | go/orm/flush.go:301-328 | The built lists say exactly which scheduled parents and cascade owners each insert waits for |
| Planning.DeleteDependencies | go/orm/flush.go:352-378 | The built lists say exactly which scheduled children come before each parent, from either side's navigation |
| FlushPlans.PendingWork | go/orm/flush.go:128-143 | Pending are the scheduled inserts still untracked and the scheduled removals still tracked, in order |
| FlushPlans.AllEntries | go/orm/tracker.go:114-121 | Every tracked entry once, in registration order |
| FlushPlans.DirtyEntries | go/orm/flush.go:149-178 | The dirty ones are exactly the registered entries whose instance holds some updatable property, the stamp aside, otherwise than its snapshot, and that no removal covers |
| FlushPlans.RanksFollowKeys | go/orm/flush.go:198-221 | In a plan's ranks a type stands no lower than one whose key its rows hold, whichever side declares the relationship |
| FlushPlans.SortEntries | go/orm/flush.go:113-119 | Sorting by type rank and registration loses and repeats nothing |
| FlushPlans.PlanFlush | go/orm/flush.go:85-122 | The plan orders the pending inserts, the dirty and the pending deletes as specified, and is refused exactly when one phase has a circle; a refused delete phase names the types of all pending deletes |
| FlushPlans.PlanIsUnique | go/orm/flush.go:85-122 | Session and schedule decide the plan: no scan order shows |
| Flushing.PhasesInOrder | go/orm/flush.go:487-547 | At each place of a plan's call stands the insert, the update or the delete its phase has there |
| Flushing.PlannedIsShaped | go/orm/flush.go:487-547 | A plan's call writes its inserts first, each instance once, and its deletes last |
| Flushing.PlannedIsReady | go/orm/flush.go:128-143 | A planned flush meets what its rollback needs, whatever key fields were edited |
| Flushing.FailedFlushRestores | go/orm/flush.go:60-71 | A failed flush puts the session back |
| Flushing.FlushBatches | go/orm/flush.go:60-64 | A flush that succeeds statement by statement, its keys fresh, succeeds under every plan, with the same result and the planner's messages |
| Flushing.Flush | go/orm/flush.go:29-73 | The whole flush: refused before any statement exactly on a circle; else committed exactly when no operation and no statement failed and, unless there was nothing to do, the commit went through; committed, the schedule is empty; failed, schedule and session are as before; in each case the next flush finds an identity map in step |
| Settling.RunSettles | go/orm/db_crud.go:537-563 | A call that writes each instance once and succeeds, whatever its messages: every tracked instance is clean, no deleted one is tracked, and where nothing was deleted by key alone the key of every inserted one is in the map |
| Flushing.CommittedFlushSettles | go/orm/flush.go:60-72 | So it is after every committed flush |
| Flushing.NextFlushIsEmpty | go/orm/flush.go:29-73 | So the flush after a committed one has an empty plan |
| Ordering.DependencyOrder | go/orm/flush.go:432-464 | The counters and the ready nodes give at each step the least node all of whose dependencies are placed; ok exactly when the dependencies, self-loops dropped, have no cycle |
| Ordering.CompleteIffAcyclic | go/orm/flush.go:432-464 | The order is complete exactly when there is no cycle, and then topological |
| Ordering.OrderIsUnique | go/orm/flush.go:432-464 | There is one such order |
| Ordering.LeftOverHasCycle | go/orm/flush.go:432-464 | The nodes it leaves out contain a cycle |
| Ordering.PopLeast | go/orm/flush.go:466-480 | Taking from the ready nodes gives the least and leaves the rest |
| Ordering.Release | go/orm/flush.go:456-461 | Placing a node lowers its dependents' counters by one and readies those that reach zero |
| Components.RootIsClosed | go/orm/flush.go:239-268 | What stands above a root of the search, with what is finished, depends on nothing else |
| Components.AboveRootIsMutual | go/orm/flush.go:239-268 | Everything above a root is on a cycle with it |
| Components.PopKeeps | go/orm/flush.go:254-266 | Taking a component off keeps the search's invariant |
| Components.TypeRanker.Pop | go/orm/flush.go:254-266 | The stack from the root up becomes one component |
| Components.TypeRanker.Connect | go/orm/flush.go:239-268 | The recursive search from an unvisited type leaves it finished, or linked to an unfinished one below |
| Components.TypeRanker.VisitAll | go/orm/flush.go:269-273 | Afterwards two types share a component exactly when each reaches the other, and a component comes after those it depends on |
| Ranking.RankOf | go/orm/flush.go:275-285 | A component's rank is the least above the ranks of all components it depends on |
| Ranking.RankTypes | go/orm/flush.go:192-291 | Types on a common cycle share a rank, a dependency out of it has a smaller one, and no rank is higher than that calls for |
| Ranking.RankIsUnique | go/orm/flush.go:192-291 | The graph decides the ranks |
| Ranking.RankIsLongest | go/orm/flush.go:180-191 | A rank is the number of components the longest chain of dependencies passes into |
| Discovery.Discoverer.Discover | go/orm/flush.go:198-221 | Discovering from a type notes exactly what its relationships lead to, and their references |
| Discovery.RankSeeds | go/orm/flush.go:192-226 | The ranks are those of the types reached from the seeds |
| Discovery.SeedsDecide | go/orm/flush.go:180-191 | They depend on which types are seeds and not on the order anything is met in |
| Schedule.UnitOfWork.Cancel | go/orm/unit_of_work.go:322-362 | The loop over the links cancels the least set that holds the given inserts and every insert it orphans, keeps the others in order, and ends |
| Schedule.CancelledIsUnique | go/orm/unit_of_work.go:322-362 | There is one such set, whatever the scan order |
| Schedule.SurvivorsAreHeld | go/orm/unit_of_work.go:322-362 | No surviving link names a cancelled insert, and a survivor that only cascades had scheduled still has a link |
| Schedule.CyclesSurvive | go/orm/unit_of_work.go:344-349 | Two inserts that only hold each other stay scheduled, though nothing else holds them |
| Holding.AllHeldIff | go/orm/unit_of_work.go:322-362 | Everything scheduled is reached by links from a direct insert, a linkless one or an owner outside, if and only if there is no non-empty set of linked, non-direct inserts whose every link stays in the set |
| Holding.SurvivorsHeldIff | go/orm/unit_of_work.go:322-362 | After cancelling that holds of the survivors if and only if the cancelled set, the least that has to go, is also the greatest that goes of itself |
| Holding.AcyclicSurvivorsAreHeld | go/orm/unit_of_work.go:322-362 | So it holds whenever no insert holds itself through cascades |
| Schedule.UnitOfWork.Pass | go/orm/unit_of_work.go:332-350 | One pass in place is the scan of the schedule in order |
| Schedule.QuietPassEnds | go/orm/unit_of_work.go:331-350 | A pass that cancelled nothing has reached the fixpoint |
| Schedule.UnitOfWork.Clear | go/orm/unit_of_work.go:365-370 | The schedule is empty |
| Persisting.EdgesAreCascades | go/orm/unit_of_work.go:179-190 | The walk follows exactly the relationships that declare a persist cascade, in their order, and in each the navigation's targets in theirs |
| Persisting.Persist | go/orm/unit_of_work.go:105-233 | Persist schedules exactly the untracked, not yet scheduled instances that declared persist cascades reach, each once, in depth-first pre-order, with exactly those cascades as links; it is refused exactly when one of them is of a read-only or keyless type or scheduled for removal, schedules nothing then, and answers the first in that order |
| Persisting.PreOrderIsUnique | go/orm/unit_of_work.go:139-192 | The cascades decide that order |
| Persisting.WalkIsReached | go/orm/unit_of_work.go:139-192 | A complete walk visits exactly what the cascades reach, also around cycles |
| Persisting.PersistPlan.Visit | go/orm/unit_of_work.go:139-192 | One visit extends the walk in pre-order or stops at the first that refuses |
| Persisting.Commit | go/orm/unit_of_work.go:208-233 | Committing adds the planned inserts once, raises the direct flags and joins each link once |
| JoinFold.JoinReader.Read | go/orm/db_eager_join.go:490-606 | After the rows, every navigation gathered what its segments say, or a clash was met exactly when a row says so |
| JoinFold.TakeKeeps | go/orm/db_eager_join.go:540-600 | Folding one row's segment keeps what is gathered right |
| JoinFold.SegmentAppears | go/orm/db_eager_join.go:490-606 | Every segment of a root is in some row of the left join |
| JoinFold.FoldMeets | go/orm/db_eager_join.go:611-634 | The folded navigations fill the definition, shared instances included |
| JoinFold.LoadByJoin | go/orm/db_eager_join.go:419-635 | Join mode loads the graph the includes define, or refuses exactly as they do |
| BatchLoading.DistinctTuples | go/orm/db_eager.go:177-192 | The tuples once each |
| BatchLoading.Correlate | go/orm/db_eager.go:202-217 | Each owner's tuple, none for one with a null part, and the distinct ones where a key list needs them |
| BatchLoading.QueryMembership | go/orm/db_eager.go:316-356 | By key lists of any chunk size or by one subselect, the answer is exactly the matching targets, each once, ascending by key |
| BatchLoading.LoadOneToMany | go/orm/db_eager.go:584-660 | Tuple path: each owner gets exactly the targets that reference it, in key order |
| BatchLoading.LoadOneToManyByInteger | go/orm/loading_keys.go:156-177 | Integer path: the same |
| BatchLoading.LoadToOne | go/orm/db_eager.go:411-562 | Tuple path: each owner gets its one target or none, and a repeat is refused exactly when the definition is ambiguous |
| BatchLoading.LoadToOneByInteger | go/orm/loading_keys.go:156-177 | Integer path: the same target and the same refusal |
| BatchLoading.LoadManyToMany | go/orm/db_eager.go:670-745 | Each owner gets exactly the targets some link row of its names, once each, in key order |
| BatchLoading.GroupLinkRows | go/orm/db_eager.go:777-798 | Link rows become each owner's target keys; a null on either side correlates nothing |
| BatchLoading.LoadByQueries | go/orm/db_eager.go:73-91 | MultiQuery and SubSelect load the graph the includes define, or refuse exactly as they do |
| Relations.SortByKeySorts | go/orm/loading_keys.go:107-150 | The in-place sort orders by key and keeps every instance |
| Relations.DefinitionIsUnique | go/orm/db_eager_join.go:490-635 | Two results that meet the definition are one graph, navigations and sharing included, or both are the refusal |
| Relations.UnambiguousGraph | go/orm/db_eager.go:565-578 | A result is the refusal exactly when some root has two targets for a to-one include; one-to-many and many-to-many includes load lists and are never refused |
| Listing.List | go/orm/criteria_query.go:78-126 | Whichever of the three modes the query asks for: the same roots in the same order with the same navigations and sharing, or the same refusal |
| Paging.TiebrokenNames | go/orm/criteria_query.go:130-145 | The key-tiebroken orderings start with the given ones, name every key, and add keys only that were not named |
| Paging.KeyTiebroken | go/orm/criteria_query.go:130-145 | The loop computes them |
| Paging.FirstTellingDecides | go/orm/criteria_query.go:96-103 | Rows are ordered by the first ordering that tells them apart, upwards or, where it descends, downwards |
| Paging.SortedIsUnique | go/orm/criteria_query.go:96-103 | Two evaluations sorted by orderings that list every key are one list |
| Paging.TiebrokenListsIff | go/orm/criteria_query.go:130-145 | Every key is listed if and only if each key is ordered on already or shares its name ignoring case with no ordering and no other key before it |
| Paging.DeterministicIff | go/orm/criteria_query.go:96-145 | Under exactly that condition any two evaluations of any rows, sorted by the key-tiebroken orderings, are one list |
| Paging.PagesAgree | go/orm/criteria_query.go:96-122 | Under that condition a paged root gives one page both times it is evaluated, and each navigation's subquery selects exactly the owners returned |
| Paging.FoldedNamesTie | go/orm/criteria_query.go:135-140 | A concrete query whose key shares its name ignoring case with an ordering: the key goes unlisted, and rows of different keys tie |
| Rendering.ExistsIsMembership | dotnet/src/SimpleOrm/AnsiSelectRenderer.cs:180-217 | The correlated EXISTS is true with the membership, and differs from it exactly where the membership is unknown |
| Rendering.RenderingsAgree | dotnet/src/SimpleOrm/AnsiSelectRenderer.cs:144-243 | For every tree with each composite membership under an even number of negations: it renders on every dialect when it does on the reference, and is true of the same rows |
| Rendering.AnswersAgree | dotnet/src/SimpleOrm/AnsiSelectRenderer.cs:245-248 | A nested select answers the same rows on every dialect, an unpaged one without its orderings too |
| Rendering.SelectsAgree | dotnet/src/SimpleOrm/AnsiSelectRenderer.cs:104-132 | The root select's predicate, orderings and page answer the same rows in the same order on every dialect |
| Selecting.RowValueMeans | dotnet/src/SimpleOrm/AnsiSelectRenderer.cs:144-243 | Where a dialect has row values its SQL is true, false or unknown of a row exactly as the tree is, said without SQL and of every tree: comparison with a null as a null check, list, null check, membership, conjunction and disjunction with their empty forms, negation |
| Selecting.RowValueSelects | dotnet/src/SimpleOrm/AnsiSelectRenderer.cs:98-132 | It answers exactly the rows the select chooses, in its order, page and projection; an unpaged subquery's in any order where orderings are dropped |
| Selecting.ReferenceMeans | dotnet/src/SimpleOrm/AnsiSelectRenderer.cs:144-243 | So does the reference's SQL, whatever the database |
| Selecting.ReferenceSelects | dotnet/src/SimpleOrm/AnsiSelectRenderer.cs:98-132 | And its answers are the select's, subqueries in their order too |
| Selecting.RenderingMeans | dotnet/src/SimpleOrm/AnsiSelectRenderer.cs:144-243 | So on every dialect, unknowns aside that select nothing more, for every tree with each composite membership under an even number of negations |
| Selecting.RenderingSelects | dotnet/src/SimpleOrm/AnsiSelectRenderer.cs:98-132 | And so does a root select on every dialect |
| Selecting.RenderingBinds | dotnet/src/SimpleOrm/AnsiSelectRenderer.cs:144-243 | Every dialect binds exactly the values the tree compares with, from left to right, a subquery's page after its predicate |
| Selecting.BindingsAgree | dotnet/src/SimpleOrm/AnsiSelectRenderer.cs:144-243 | So every dialect binds the same values in the same order, whatever the tree |
| Selecting.ReferenceRefuses | dotnet/src/SimpleOrm/AnsiSelectRenderer.cs:144-217 | The reference renders a tree exactly when it names mapped properties only, compares a null by equality only, lists no null, compares memberships of one width and pages by no negative number; else it answers the first of these faults |
| Selecting.ReferenceRefusesSelect | dotnet/src/SimpleOrm/AnsiSelectRenderer.cs:98-132 | The same of a select |
| Rendering.NegatedMembershipDiffers | dotnet/src/SimpleOrm/AnsiSelectRenderer.cs:180-217 | Under one negation a null makes the two forms select differently |
| Rendering.DroppedOrderingIsUnchecked | dotnet/src/SimpleOrm/AnsiSelectRenderer.cs:245-248 | A concrete tree, an unmapped ordering property of an unpaged subquery: refused where the ordering is rendered and not where it is dropped |
| Rendering.RefusalsAgreeIff | dotnet/src/SimpleOrm/AnsiSelectRenderer.cs:144-248 | Of every tree: the reference renders it if and only if a dialect that drops orderings does and every unpaged subquery, however deep, is ordered by mapped properties; and where that is so, or nothing is dropped, the two refuse alike, with the same code |
| Rendering.SelectRefusalsAgreeIff | dotnet/src/SimpleOrm/AnsiSelectRenderer.cs:104-132 | The same of a root select, whose own orderings are always rendered |
| DirtyUpdates.UpdateStores | go/orm/db_crud.go:500-564 | Either update stores the instance: unless the row's version is another one, the row afterwards holds it in every property the type maps that is no key part, no version and no generated value; the rest stays and the version moves on |
| DirtyUpdates.DirtyUpdateRefines | go/orm/db_crud.go:528-564 | Where the stored row is as the snapshot, a dirty update leaves it exactly as the whole-row update would, version included, or both find no row |
| DirtyUpdates.UpdateSettles | go/orm/db_crud.go:537-563 | Once it completes, the snapshot is the stored row again and another update issues nothing |
| TableOrder.Order | dotnet/src/SimpleOrm.Cli/DiffCommand.cs:548-581 | The depth-first emission is every new table once, and referenced-first exactly when the references among them, self-references aside, have no cycle |
| TableOrder.ReferencesAre | dotnet/src/SimpleOrm.Cli/DiffCommand.cs:560-572 | The order's references are the foreign keys that name the type of a new table, at the first table of that type |
| TableOrder.ReferencedFirstIffAcyclic | dotnet/src/SimpleOrm.Cli/DiffCommand.cs:548-581 | Of any such emission |
| TableOrder.MutualTablesHaveNoOrder | dotnet/src/SimpleOrm.Cli/DiffCommand.cs:548-581 | Two new tables that reference each other: no emission order is referenced-first |

## Findings

Properties that do not hold of the code as one might first state them, each with an input that
shows it and the condition under which the code does meet it.

- A failed call restores the session: not when, in one message, an instance tracked under a key it
  no longer holds, or under an unset key, is inserted after a delete by that key
  (`Orphans.RollbackLeavesOrphan`, go/orm/tracker.go:103-112), and not when the database generates the key
  that a tracked, newly inserted instance holds (`Collisions.CollidingKeyLeavesOrphan`,
  go/orm/db_write.go:335-347). In each an entry stays behind in the sorted array. One restore keeps the map
  consistent exactly when the pointer holds no entry under another key (`IdentityMap.RestoreKeepsMapIff`); a
  whole call restores when its caller is ready and its keys are fresh (`Rollbacks.RunRollbackRestores`), a
  planned flush whatever key fields were edited (`Flushing.PlannedIsReady`).
- Batching changes nothing: not when a message holds a statement that frees an entry another operation's
  identity gate closes on, and rule 1 sees no tie between the two. Three inputs show the three ways: a delete by
  the registered key of an edited instance, then that instance's update (`Divergence.BatchingDiverges`,
  go/orm/batching.go:154-178); a delete by the zero of a generated key, which rule 1 does not compare, then one of
  an instance that holds it (`UnsetArguments.UnsetArgumentDiverges`, go/orm/batching.go:124-142); the insert of an
  instance tracked under another key, then the update of the instance that holds that key
  (`StaleInserts.StaleInsertDiverges`, go/orm/db_crud.go:368-374). `Batching.BatchingRefinesIff` is the exact
  condition for them all: whatever blocks an operation is freed by a message sent before it prepares. It asks that
  no written instance holds an unset key it is tracked under; `UnsetKeys.UnsetKeyDiverges` shows why.
- The Go and the C# planner form the same messages: exactly when no message holds two deletes by one
  unset key (`SharpPlans.PlannersFormSameIff`); two deletes by the key 0 of a type with generated
  keys are one message in Go and two in C# (`SharpPlans.PlannersDiffer`,
  dotnet/src/SimpleOrm/DbBatching.cs:207-220, go/orm/batch.go:200-206).
- Rewriting a composite membership keeps the selected rows: exactly where the membership is not
  unknown (`Rendering.ExistsIsMembership`), so under an even number of negations always; under one
  negation a null makes the difference (`Rendering.NegatedMembershipDiffers`,
  dotnet/src/SimpleOrm/AnsiSelectRenderer.cs:180-217).
- Every dialect refuses the same trees: not one whose unpaged subquery is ordered by an unmapped property, since
  a dropped ordering is not checked (`Rendering.DroppedOrderingIsUnchecked`,
  dotnet/src/SimpleOrm/AnsiSelectRenderer.cs:245-248). Of the trees such a dialect renders the
  reference refuses exactly those with such a subquery in them; without one both refuse alike, with the same code, and
  so does every dialect that drops nothing (`Rendering.RefusalsAgreeIff`).
- A paged root is deterministic: exactly when each key is ordered on already or shares its name ignoring case with
  no ordering and no other key before it (`Paging.DeterministicIff`); otherwise the key goes unlisted
  (`Paging.FoldedNamesTie`, go/orm/criteria_query.go:135-140).
- New tables come out referenced-first: exactly when their references, self-references aside, have
  no cycle (`TableOrder.Order`); two that reference each other have no such order
  (`TableOrder.MutualTablesHaveNoOrder`, dotnet/src/SimpleOrm.Cli/DiffCommand.cs:548-581).
- Cancelling leaves no insert that nothing holds: two that hold only each other stay
  (`Schedule.CyclesSurvive`, go/orm/unit_of_work.go:344-349). It is the least fixpoint; the survivors are all
  held from outside exactly when it is also the greatest, so always where no insert holds itself through
  cascades (`Holding.SurvivorsHeldIff`, `Holding.AcyclicSurvivorsAreHeld`).

## Left out

- Rollbacks.RunRollbackRestores: under messages of several statements the ready caller and the fresh keys are sufficient; both halves of readiness and the freshness are each shown needed by an input, but no if-and-only-if over whole calls is stated, because whether an orphan appears depends on which later statements of the same message still complete.
- Rollbacks.RollbackRestores: foreign keys that flowed into an instance before its capture stay as they flowed, as in the code; the identity map's counter is not rolled back either.
- Batching.BatchingRefinesIff: aside are a written instance tracked under an unset key that it still holds, an inserted instance of a keyless type that is tracked, and a flushed insert that is tracked; the source brings the last two about nowhere.
- Flushing.FlushKeysArrive: an instance that references itself is aside, as in the code's order: its foreign key takes the key it has before its own insert.
- Arrivals.FlowedInsertAgrees: one way only; foreign keys that overlap but are given one value agree too.
- Settling.RunSettles: a call that updates listed columns is aside, since it leaves the unlisted ones unwritten; of two instances that took one key in the call it is not said which is tracked.
- Flushing.Flush: the summary's counts and the transaction's own begin are not modelled; the commit is a flag. Of a failed flush that cannot be undone nothing is promised about the map.
- Rendering.SelectsAgree: the root's joins, their aliases and their ON clauses are not modelled.
- Persisting.Persist: a child's links are stated as a set, each joined once, not in the order they are appended.
- Tracking.Tracker.PutBack: of the state after an entry is listed twice only that is stated.
- Rendering.RenderingsAgree: no converse over whole trees, because other parts of a tree can hide the difference.
- SharpPlans.PlannersFormSameIff: the C# planner forms messages over the facts of the Go run; its own preparation and undo are not modelled.
- DirtyUpdates.DirtyUpdateRefines: bound values are canonical, so bound-value equality is equality.
- Converters, column widths, integer version overflow and key coercion: values are canonical, versions unbounded.
- An entry's identity is its registration number, and snapshots are held beside the map; text is held by its ordinal rank, so the key order is a concrete total order.
- The ready heap is a list from which the least node is taken; the order it gives is the heap's.
- A scheduled insert is a value in the schedule's map, and schedule order is the position in the list, along which the counter grows.
- Remove's walk, Detach, Merge, Refresh and the queueing of a batch are not modelled.
- In Persist an instance's navigations are one list of cascade edges.
- Types and Tarjan's nodes are numbers; errors of the metadata loader are not modelled.
- The C# join fold is not modelled apart from the Go one; join mode is modelled on untracked roots.
- What a SubSelect navigation query answers is given by the owners it selects from; that the page it re-evaluates is the roots' is `Paging.PagesAgree`.
- Link groups are a map instead of a list searched linearly; the many-to-one integer path shares the one-to-one map, where a repeat cannot occur.
- The database's unordered evaluation in `Rendering` is one function of the query; `Paging` is about two evaluations.
- The renderer's joins, quoting, alias allocation and parameter names are left out: properties are positions.
- Table lists that name a type twice, and everything of the diff generator but the order, are left out.
- Drivers, timeouts, context cancellation, prepared commands, the message observer and the statement log are left out.
