# Verification of AutoSWE's core protocols

A Dafny model of the parts of AutoSWE whose guarantees span several functions, with proofs of those
guarantees. `dafny verify dfyconfig.toml` checks everything.

- **Relations and what is generated from them.** `Relations.dfy` and `CreationOrder.dfy` model cycle
  breaking and the creation order. `Migrations.dfy` treats the initial migration as a compiler from entities
  to schema statements and runs its programs on a small database; `Schemas.dfy` says what is in the database
  then. `Names.dfy` has the spelling rules and says when names clash under them, `Words.dfy` what they make
  of a name. `GoStore.dfy` and `GoService.dfy` model the generated Go stores with their cascading deletes,
  and the handlers, `GoReferences.dfy` says which items go with a deleted one, and `GoServer.dfy` wires the
  service for a whole specification.
- **Token budgets and the job queue.** `Ledger.dfy` says what every transaction does to the shared tables,
  and `Database.dfy` has the transactions statement by statement, proved against it. `Runs.dfy` makes one
  committed transaction one step and lets any workers, submitters, cancels, reapers and retries interleave;
  a claim's SELECT and UPDATE are separate steps. `Transactions.dfy` says what each step does to which row.
  `Conservation.dfy`, `Overshoot.dfy`, `Seats.dfy`, `Lifecycle.dfy`, `JobHistory.dfy` and `Submissions.dfy`
  hold what every such run guarantees, `OneCallBound.dfy` when the documented overshoot bound is right, and
  `Losses.dfy` runs that unbalance the books. `LateWorkers.dfy` lets workers outlive their claims and keeps
  an account of every ledger row that holds whatever they do; `Leaks.dfy` says over whole runs what comes
  back, what is lost and exactly when.
- **The event stream.** `Sse.dfy` has the client's incremental parser and the server's printer,
  `EventFormat.dfy` what a text means as a stream, `Frames.dfy` the frames of a stream, `Delivery.dfy` the
  replaying server and the reconnecting client, `ExactlyOnce.dfy` the delivery guarantee and `Liveness.dfy`
  what can still be delivered. The format is that of Server-Sent Events, section 9.2 of the WHATWG HTML
  Living Standard.
- **The checkpointed pipeline.** `Paths.dfy` models path safety and size limits, `Sanitizing.dfy` says what
  of a batch is kept and reported, `Ownership.dfy` which stage owns a path, `Pipeline.dfy` the shared state.
  `Review.dfy` has the repair loops, `Repairs.dfy` what their rounds are, `Turns.dfy` such loops in general,
  `Collisions.dfy` which merges can put two spellings of one path into a project. `Stages.dfy` says what an
  uninterrupted run leaves in memory, `Checkpoints.dfy` what is stored and restored, `Resume.dfy` that
  interrupted runs agree with uninterrupted ones, `Latecomers.dfy` when a worker that lost its job can break
  them. `PlatformNames.dfy` discharges an assumption about file names for the real path rules.
- **Listing jobs.** `Paging.dfy` models keyset pagination.

Code that changes state step by step is a class or a method with loops, proved against a function
that states its result; the theorems are lemmas about those functions and about whole runs. Times,
Unicode tables, encoded lengths, the language model and the sandbox are parameters,
so every result holds for all of them.

## Where the code and its documentation differ

The model follows the code. Each difference is a lemma.

- `src/autoswe/budget.py:13-14` and `docs/adr/0002-token-budgets-and-cost.md:45-46` bound the overshoot by
  one call. The true bound is less than one call for each reservation that fits into the limit
  (`Seats.OvershootOfPolicy`), it is reached (`OneCallBound.BoundIsAttained`), and
  `OneCallBound.OneCallBoundExactly` says for which policies the documented one holds.
- `src/autoswe/budget.py:15-16` says reservations cannot leak. Late reports and top-ups by a worker that lost
  its job, and a job deleted after its owner retried it, can unbalance the books
  (`Losses.TopUpUnbalances`, `Losses.ReportUnbalances`, `Losses.DeletionUnbalances`, `Losses.OrphanUnbalances`).
  `Conservation.LateReport`, `Conservation.LateTopUp` and `Conservation.DeletedJob` say exactly when each of
  them keeps ledger, job rows and guards in agreement. A late top-up is given back by the report of the call
  it was made for, as far as that uses it (`Leaks.ReportGivesBack`); what the worker has not reported when it
  stops is lost (`Leaks.LateTopUpForGood`). A deletion loses what the job's row holds (`Leaks.DeletionLoses`).
  What is lost comes back only by takings without backing, such as another reaped worker's report of tokens that
  the row no longer reserves for it, and by no more than those (`Leaks.NothingElseRecovers`).
- `src/autoswe/pipeline/validation.py:119` keeps two spellings of one path from overwriting each other. That
  holds within one batch of files and after every stage before the review (`Collisions.StagesNeverCollide`); a
  test repair can add a second spelling (`Collisions.TestRepairCanCollide`), and
  `Collisions.TestRepairKeepsKeysDistinct` says exactly when it does not.
- `docs/adr/0009-resumable-jobs.md:21-26` restores a stage from what was stored when it succeeded. Its three
  commits (`src/autoswe/pipeline/orchestrator.py:409-436`) do not ask who has the job: a worker that lost it in
  between can mark a stage as succeeded whose files a requeue has removed, and the next attempt goes on
  without them. `Latecomers.LateAfterRequeue` says exactly when.
- `src/autoswe/repository.py:493` fails running jobs, but writes the event for every selected one, also when its
  update finds that a job has ended since: the log of a succeeded job can end with its failure
  (`JobHistory.SuccessLoggedAsFailure`). `JobHistory.ReapAgreesExactly` says exactly when log and status agree.
- `src/autoswe/llm/offline/templates_migrations.py:202-203` tells index drops from table drops by their text,
  so some table names make the downgrade fail (`Migrations.DropIndexEntityBreaksDowngrade`). Index
  names built with underscores can collide and make the upgrade fail
  (`Migrations.IndexNamesCanCollide`); `Names.IndexesClash` says exactly when.
- `frontend/src/lib/sse.ts:12` normalises line ends per chunk, so a CR LF cut in two counts as two
  line ends (`Sse.ChunksParse`) and can split an event (`Sse.CutCRLFSplitsEvent`). The server writes no CR,
  so AutoSWE's own streams are not affected.
- `src/autoswe/api/jobs.py:534-535` argues that a terminal status is never seen without its event. That holds
  for a poll exactly when the job still exists at its second read, or it had nothing left to send
  (`ExactlyOnce.EndIsExact`, `ExactlyOnce.EndComesLast`); a deletion between the two reads loses the rest
  (`Liveness.DeletionLosesTheRest`).

## Model

| member | source | states |
|---|---|---|
| Relations.Reaches | src/autoswe/pipeline/relations.py:32-41 | the explicit-stack search answers true exactly when a path of kept parent links leads from start to goal; it terminates on cyclic graphs too |
| Relations.KeepParents | src/autoswe/pipeline/relations.py:45-51 | one entity's loop keeps exactly the parents that are known, not itself, not repeated and do not already reach it, and records them in `kept` |
| Relations.Normalise | src/autoswe/pipeline/relations.py:22-56 | the whole loop returns the entities in order, each with its surviving parents |
| Relations.NewEdgeKeepsAcyclic | src/autoswe/pipeline/relations.py:48-50 | an edge whose parent does not reach the child closes no cycle |
| Relations.SurvivorsKeepAcyclic | src/autoswe/pipeline/relations.py:45-50 | what one entity keeps leaves the graph acyclic, and every usable parent it drops does reach it through kept edges |
| Relations.NormaliseIsMaximalAcyclic | src/autoswe/pipeline/relations.py:23-27 | for distinct names the result is a valid acyclic specification with the same entities, and a relation survives if and only if it is usable and its parent does not reach the entity in the result |
| Relations.NormaliseFixesExactlyValid | src/autoswe/pipeline/relations.py:26-27 | for any entities, repeated names included, the result equals the input if and only if every parent is usable and, entity by entity, the relations declared so far form no cycle |
| Relations.DistinctNamesOrderless | src/autoswe/pipeline/relations.py:23-27 | for distinct names that condition is validity of the whole specification, in whatever order it is written |
| Relations.NormaliseIdempotent | src/autoswe/pipeline/relations.py:22-56 | normalising twice is normalising once, for any entities, repeated names included |
| Relations.NormalisedIsAcyclic | src/autoswe/pipeline/relations.py:25-26 | on every input, repeated names included, the result's relations form no cycle |
| CreationOrder.InOrder | src/autoswe/pipeline/relations.py:59-72 | the rounds of ready entities, and a cycle error when some entity is never ready |
| CreationOrder.NothingReadyMeansCycle | src/autoswe/pipeline/relations.py:65 | a round with nothing ready while entities are pending means the relations have a cycle |
| CreationOrder.OrderedMeansAcyclic | src/autoswe/pipeline/relations.py:65-72 | an order with all parents first exists only for acyclic relations |
| CreationOrder.RoundsPutParentsFirst | src/autoswe/pipeline/relations.py:68-71 | every known parent stands strictly before each of its children |
| CreationOrder.CreationOrderIsTopological | src/autoswe/pipeline/relations.py:59-72 | the order is complete if and only if the relations are acyclic, and is then a permutation of the entities with parents strictly first |
| CreationOrder.NormalisedHasCreationOrder | src/autoswe/pipeline/relations.py:25-26 | a normalised specification with distinct names always has a creation order: a permutation, every parent strictly first |
| CreationOrder.EveryInputHasCreationOrder | src/autoswe/pipeline/relations.py:25-26 | whatever is normalised, repeated names included, the creation order succeeds and lists one entity for every name, parents first |
| CreationOrder.TiesKeepSpecificationOrder | src/autoswe/pipeline/relations.py:60-70 | an entity is never overtaken by a later one that waits for at least the same parents |
| Migrations.RenderInitialMigration | src/autoswe/llm/offline/templates_migrations.py:173-204 | the renderer fails exactly on cyclic relations and otherwise emits the specified upgrade and downgrade programs |
| Migrations.RenderOrdered | src/autoswe/llm/offline/templates_migrations.py:177-204 | the loop that appends to the upgrade and inserts into and appends to the downgrade builds those programs |
| Migrations.RenderEntity | src/autoswe/llm/offline/templates_migrations.py:178-200 | one entity's create-table, its foreign keys and indexes, and the index drops in reverse |
| Migrations.UpgradeBuildsSchema | src/autoswe/llm/offline/templates_migrations.py:173-200 | run on an empty database the upgrade succeeds if and only if no two tables, indexes or columns of a table share a name, and then ends with the whole schema; no statement refers to a missing table |
| Migrations.EveryReferenceResolves | src/autoswe/llm/offline/templates_migrations.py:190-194 | in the schema that is built every foreign key's table exists |
| Migrations.SchemaIsComplete | src/autoswe/llm/offline/templates_migrations.py:177-200 | nothing is overwritten: every entity's table and an index for each of its foreign keys are in the schema |
| Schemas.SchemaIsAsSpecified | src/autoswe/llm/offline/templates_migrations.py:173-200 | what a successful upgrade has built, entity by entity: its table has a key for each known parent, referencing that very parent's table, and no other reference; a column for each field, nullable unless required, a required one for each key, the id and the creation time, and no other; an index for each key and no index beyond these |
| Schemas.TableReferences | src/autoswe/llm/offline/templates_migrations.py:190-194 | each kept parent's key leads to the table named after that parent, and every reference is such a key |
| Schemas.TableHasColumns | src/autoswe/llm/offline/templates_migrations.py:179-189 | the columns in order: id, the fields with their nullability, a required key for each parent, created_at |
| Schemas.UpgradeNeedsParentsFirst | src/autoswe/llm/offline/templates_migrations.py:177 | why the creation order is needed: for entities in any order whatever the upgrade succeeds if and only if the names are distinct and each known parent's table is created before its child's |
| Schemas.ForwardDropsFail | src/autoswe/llm/offline/templates_migrations.py:201-204 | why tables are dropped in reverse: dropped in creation order, the downgrade fails as soon as an entity has a parent |
| Migrations.WellNamedMeansDistinct | src/autoswe/llm/offline/templates_migrations.py:178-198 | the upgrade's condition is that table names, index names and each table's column names are distinct |
| Migrations.WordsOnALine | src/autoswe/llm/offline/templates_migrations.py:199-203 | a downgrade line contains `drop_table` or `drop_index` exactly when the statement or one of its names does |
| Migrations.RunDropTables | src/autoswe/llm/offline/templates_migrations.py:201-204 | dropping tables in reverse creation order never drops a table that a remaining one references, and empties the database |
| Migrations.DowngradeUndoesUpgrade | src/autoswe/llm/offline/templates_migrations.py:173-204 | upgrade then downgrade returns to the empty database if and only if the downgrade's lines can be told apart by text; otherwise the downgrade fails |
| Migrations.DropIndexEntityBreaksDowngrade | src/autoswe/llm/offline/templates_migrations.py:202-204 | an entity called DropIndex (table drop_indexes) has a migration that upgrades and cannot be downgraded |
| Migrations.IndexClashFailsUpgrade | src/autoswe/llm/offline/templates_migrations.py:196-198 | whenever two entities of an acyclic specification get the same index name, its upgrade fails |
| Migrations.IndexNamesCanCollide | src/autoswe/llm/offline/templates_migrations.py:197 | an acyclic specification of Role, GroupsRole, User and UsersGroup has four different tables and an upgrade that fails, because two foreign keys get one index name |
| Names.SnakeClash | src/autoswe/pipeline/naming.py:34-40 | two names have the same snake-case form if and only if they are made of the same words, after the rules for empty names, leading digits and keywords |
| Names.IndexesClash | src/autoswe/llm/offline/templates_migrations.py:197 | two foreign keys get the same index name if and only if the words of table and parent, taken together, are the same, however they are divided |
| Names.WellNamedInWords | src/autoswe/llm/offline/templates_migrations.py:173-200 | with the real spelling rules the upgrade's condition: no two tables of the same words, no two foreign keys of the same words, no column repeated in a table |
| Names.RealNamesFail | src/autoswe/pipeline/naming.py:34-61 | with the real spelling rules both failures occur: the upgrade of Role, GroupsRole, User and UsersGroup fails, and the migration of DropIndex cannot be undone |
| Words.WordsAreCut | src/autoswe/pipeline/naming.py:29-31 | a name is cut exactly where a word begins: at a letter or digit behind anything else, and at a capital behind a small letter or digit |
| Words.WordIsCut | src/autoswe/pipeline/naming.py:29-31 | between two such places is one word, the letters and digits there in lower case, or none |
| Words.UsualPlurals | src/autoswe/pipeline/naming.py:57-61 | the ending of every ordinary word's plural by its last letters, whatever their case |
| Words.UnusualPlurals | src/autoswe/pipeline/naming.py:52-56 | the exceptions, whatever their case |
| GoStore.Store.constructor | src/autoswe/llm/offline/templates_go.py:207-210 | an empty store hands out ids from 1 |
| GoStore.Store.CascadeTo | src/autoswe/llm/offline/templates_go.py:212-217 | one more dependent, nothing else changed |
| GoStore.Store.Create | src/autoswe/llm/offline/templates_go.py:268-279 | the next id is used once, and the item holds the id, the time and the data |
| GoStore.Store.Update | src/autoswe/llm/offline/templates_go.py:281-298 | merges into an existing item, or changes nothing |
| GoStore.Store.Delete | src/autoswe/llm/offline/templates_go.py:300-313 | terminates; removes the item and exactly what refers to it through any chain of references, in every store; leaves all else and every counter as it was |
| GoStore.Store.DeleteWhere | src/autoswe/llm/offline/templates_go.py:315-328 | afterwards no item refers to the id through the key, whatever was removed depended on such an item, and whatever referred to something removed was removed too |
| GoStore.ShrunkToDependants | src/autoswe/llm/offline/templates_go.py:300-328 | removals that leave no reference behind and remove only dependants remove exactly the dependants |
| GoStore.CascadeDone | src/autoswe/llm/offline/templates_go.py:307-311 | after the loop over all dependents the cascade is complete |
| GoStore.SweepStep | src/autoswe/llm/offline/templates_go.py:325-327 | deleting one doomed item keeps the sweep's account of what may be gone |
| GoService.Validate | src/autoswe/llm/offline/templates_go.py:147-173 | a body is accepted exactly when it has only declared fields and each is well typed, or absent where that is allowed |
| GoService.AcceptableMeans | src/autoswe/llm/offline/templates_go.py:147-173 | in words: nothing undeclared; a required field is there unless the body is a patch; what is there has its type, or is null where the field is not required |
| GoService.IntegersAccepted | src/autoswe/llm/offline/templates_go.py:120-122 | an integer field takes exactly the integers that a double holds exactly |
| GoService.CascadeKeepsSound | src/autoswe/llm/offline/templates_go.py:300-328 | what a cascade leaves has referential integrity again |
| GoReferences.DependsByChain | src/autoswe/llm/offline/templates_go.py:300-328 | the items that go with a deleted one are exactly those from which a chain of references, each holding the next item's id, leads to it |
| GoService.StoringKeepsSound | src/autoswe/llm/offline/templates_go.py:525-529 | storing an item whose references exist keeps integrity |
| GoService.DeclareReference | src/autoswe/llm/offline/templates_go.py:415-421 | wiring a new, empty resource to its parents keeps stores and references in step |
| GoService.LeafDeletesAlone | src/autoswe/llm/offline/templates_go.py:300-313 | deleting an item nobody refers to removes that item only |
| GoService.Service.NewResource | src/autoswe/llm/offline/templates_go.py:414-421 | a new entity's store and its references are added; the service stays valid |
| GoService.Service.MissingParent | src/autoswe/llm/offline/templates_go.py:501-513 | reports a missing parent exactly when some reference in the data names no existing item |
| GoService.Service.Create | src/autoswe/llm/offline/templates_go.py:515-530 | succeeds if and only if the body is acceptable and every reference names an existing item; ids are never reused; referential integrity is kept |
| GoService.Service.Update | src/autoswe/llm/offline/templates_go.py:545-573 | succeeds if and only if the id is one, the partial body is acceptable, the item exists and every reference in the body names an existing item; answers not found exactly for an id that is no number from 1 on, whatever the body, or for an acceptable body and a missing item; merges the body and changes nothing else; integrity is kept |
| GoService.Service.Delete | src/autoswe/llm/offline/templates_go.py:575-585 | removes the item with all its dependants and nothing else; integrity and id freshness are kept |
| GoServer.EntityIsLinkable | src/autoswe/llm/offline/templates_go.py:371-380 | in an order with parents first, every reference of a new resource leads to a store that is there already, through a key that validation requires to be an integer |
| GoServer.KeysLeadToTheirParents | src/autoswe/llm/offline/templates_go.py:374-379 | each parent's key is checked against, and cascades from, the store of the entity with that very name |
| GoServer.ResourceFields | src/autoswe/llm/offline/templates_go.py:355-368 | a resource's fields are the entity's own, required or not as specified, and a required integer for each parent |
| GoServer.EveryInputIsWireable | src/autoswe/llm/offline/templates_go.py:373 | whatever was normalised, repeated names included, the creation order puts every parent's store before its children's |
| GoServer.NewServer | src/autoswe/llm/offline/templates_go.py:371-388 | wires one resource an entity, with the fields and references of its relations, to a valid service with empty stores |
| GoServer.ServerFor | src/autoswe/llm/offline/templates_go.py:371-388 | so every specification, normalised and ordered, yields a server with referential integrity |
| GoService.Service.KeysAreIntegers | src/autoswe/llm/offline/templates_go.py:363-366 | validation guarantees what the parent check relies on: a reference's key holds an integer |
| Database.Session.TryReserve | src/autoswe/budget.py:142-157 | reserves exactly when used, reserved and the amount fit the limit, else changes nothing |
| Database.Session.Extend | src/autoswe/budget.py:176-190 | ledger row and job row grow together, or nothing changes |
| Database.Session.Record | src/autoswe/budget.py:192-223 | usage is added and the consumed reservation taken from both rows, never below zero |
| Database.Session.Release | src/autoswe/budget.py:225-249 | gives back exactly what the job holds |
| Database.Session.Create | src/autoswe/repository.py:57-104 | inserts the job with its reservation and its stages pending; a refused reservation or a lost race for the key leaves nothing behind |
| Database.Session.Claim | src/autoswe/repository.py:277-285 | wins exactly for a queued, due job and moves only its status |
| Database.Session.RequestCancel | src/autoswe/repository.py:150-190 | cancels a queued job and releases it, flags a running one, else changes nothing; marks every stage of a cancelled job as skipped, and no other job's; answers cancelled exactly for a queued job, cancel_requested exactly for a running one, and nothing for any other |
| Database.Session.Finish | src/autoswe/repository.py:303-325 | moves a running job to its terminal status, releases it and logs one event, all or nothing |
| Database.Session.ResetForRetry | src/autoswe/repository.py:421-432 | puts a running job back in the queue with its reservation and its unfinished stages pending again |
| Database.Session.ScheduleRetry | src/autoswe/repository.py:434-456 | the same with a retry counted and a time before which it is not due; what that means over runs is `JobHistory.RetryWaits` |
| Database.Session.RetryFailed | src/autoswe/repository.py:458-490 | requeues the owner's failed job with a fresh reservation and its unfinished stages pending again, or undoes both |
| Database.Session.FailStale | src/autoswe/repository.py:492-524 | fails and releases the selected jobs that are still running, logs an event for every selected one and marks their unfinished stages as skipped |
| Database.SkipsExactly | src/autoswe/repository.py:344-353 | exactly the unfinished stages of exactly the given jobs are marked as skipped |
| Database.BudgetGuard.BeforeCall | src/autoswe/budget.py:282-298 | a call is allowed without a limit, with tokens left, or after a top-up that fits; otherwise refused and unchanged |
| Database.BudgetGuard.AfterCall | src/autoswe/budget.py:300-306 | converts at most what the guard holds, in memory and in the tables alike |
| Transactions.SubmitIs | src/autoswe/repository.py:57-104 | a submission goes through exactly if its owner has no job with its key and there is room for a reservation; the job row, ledger row and event it then leaves, and that nothing else changes |
| Transactions.RetryIs | src/autoswe/repository.py:458-490 | a manual retry goes through exactly for the owner's own failed job with room for a new reservation; the whole effect then, none otherwise |
| Transactions.ClaimIs | src/autoswe/repository.py:277-285 | a claim goes through exactly for the picked job, if it waits and its time has come; the whole effect |
| Transactions.CallIs | src/autoswe/budget.py:282-298 | a call goes ahead exactly without a limit, with tokens reserved, or with room for a new reservation, and only then reserves, in ledger, job and guard alike |
| Transactions.ReportIs | src/autoswe/budget.py:192-223 | a report counts its tokens as used, and takes what the guard holds of them out of what ledger, job and guard have reserved; the rest stays as it was |
| Transactions.FinishIs | src/autoswe/repository.py:303-325 | an outcome counts exactly for a running job, whose reservation goes back to its ledger row |
| Transactions.CancelIs | src/autoswe/repository.py:150-190 | a cancel ends a waiting job and gives back what it holds, asks a running one to stop, once, and leaves any other alone |
| Transactions.RequeueIs | src/autoswe/repository.py:421-456 | a job given back waits again with what it holds, at once or from the given time on, which counts as a retry |
| Transactions.ReapIs | src/autoswe/repository.py:492-524 | the reaper fails the running ones of its jobs, takes what they hold, logs every one and leaves all others |
| JobHistory.ClaimableExactly | src/autoswe/repository.py:259-285 | over runs: a job still waiting since it was last queued is won by a worker's claim if and only if that worker picked it and, after an automatic retry, the scheduled time has come; new, interrupted and manually retried jobs at once |
| JobHistory.RetryWaits | src/autoswe/repository.py:434-456 | over runs: the next claim after an automatic retry comes no earlier than the retry was scheduled for |
| JobHistory.RowTellsHistory | src/autoswe/repository.py:57-104 | in every run a job's row says exactly what was submitted, the period it counts in since its last manual retry, the automatic retries since then, and whether it was asked to stop while it ran |
| JobHistory.EveryTokenIsCounted | src/autoswe/budget.py:192-223 | in every run what a ledger row has used is the sum of all tokens reported for that owner and period, with or without a limit |
| JobHistory.LogTellsOutcome | src/autoswe/repository.py:303-325 | in every run whose workers name the outcomes they report, and whose reaper meets the jobs it selected running or failed already, the last event of a finished job is its outcome, and that of any other job one that leaves it unfinished |
| JobHistory.ReapAgreesExactly | src/autoswe/repository.py:507-521 | after the reaper a job's status and the last event of its log agree if and only if it was not selected, or was running or failed when the reaper came to it |
| JobHistory.SuccessLoggedAsFailure | src/autoswe/repository.py:507-521 | a run in which the reaper selects a job that succeeds before its update, and the log of the succeeded job ends with its failure |
| JobHistory.ReservationIsConfigured | src/autoswe/budget.py:71-76 | a metered job reserves what is configured, no more than its principal's limit and at least one token; a principal's own limit comes before the default |
| Conservation.StepKeepsInv | src/autoswe/budget.py:176-249 | every transaction of any worker, submitter, canceller or reaper keeps the books balanced |
| Conservation.EveryRunConserves | src/autoswe/budget.py:15-16 | after every step of every run each ledger row reserves exactly what its owner's jobs of that period hold, each running guard equals its job row and terminal jobs hold nothing |
| Conservation.NothingIsClamped | src/autoswe/budget.py:130-132 | the zero branch of the decrement is never taken: what is subtracted was there |
| Conservation.LateReport | src/autoswe/budget.py:192-223 | a report by a worker that lost its claim, whatever became of the job since, its deletion included, keeps ledger, job rows and guards in agreement if and only if it converts nothing, or takes from the ledger row just what it takes from the job row and from no other worker's guard |
| Conservation.LateTopUp | src/autoswe/budget.py:176-190 | a top-up by such a worker keeps them in agreement if and only if it is refused or the job waits in the queue in that same period |
| Conservation.DeletedJob | src/autoswe/repository.py:214-216 | deleting a job row keeps ledger, job rows and guards in agreement if and only if it holds nothing at that moment and no worker runs it |
| Losses.TopUpUnbalances | src/autoswe/budget.py:282-293 | a run from empty tables after which a reaped worker's top-up unbalances the books |
| Losses.ReportUnbalances | src/autoswe/budget.py:300-306 | a run after which a reaped worker's report, of any size, leaves another job's row with less than the job holds |
| Losses.DeletionUnbalances | src/autoswe/api/jobs.py:298-304 | a run in which a failed job is retried before it is deleted, and the deletion unbalances the books |
| Losses.OrphanUnbalances | src/autoswe/api/jobs.py:298-304 | a run after which a deletion leaves the rows balanced and its worker's next top-up unbalances them |
| Losses.TopUpComesBackOrNot | src/autoswe/metering.py:99-109 | in a reachable world a reaped worker's top-up is lost if it stops there, and the books balance again if it reports a call of that many tokens |
| LateWorkers.EveryMoveAccounts | src/autoswe/budget.py:282-306 | one account for every move of every actor, workers included whose job was reaped, deleted or taken over: what a ledger row reserves beyond the claims of unfinished jobs and of late workers falls by no more than a report or claim takes without backing, and where rows cover their claims moves by exactly what the move strands and what it takes unbacked |
| LateWorkers.ReapedIsReap | src/autoswe/repository.py:507-515 | the reaper changes the tables as in the model without late workers; all that differs is that the workers go on |
| LateWorkers.BackedIsNotClamped | src/autoswe/budget.py:130-132 | as long as takings are backed, a row that covers its claims is never decremented below zero |
| Leaks.NothingElseRecovers | src/autoswe/budget.py:176-249 | in every run of all these actors, from any state in which workers and rows belong together, what is lost comes back by no more than the unbacked takings in between |
| Leaks.LossesAddUp | src/autoswe/budget.py:176-249 | while all takings from a row are backed, what is lost on it rises by exactly what the moves strand |
| Leaks.EveryRunAccounts | src/autoswe/budget.py:15-16 | in every run from empty tables a row whose takings are all backed reserves exactly what unfinished jobs hold, what late workers have topped up and what was stranded |
| Leaks.OnlyLateTake | src/autoswe/budget.py:130-132 | while no holder of a claim has more in memory than its job's row, only late workers take unbacked |
| Leaks.HoldersStay | src/autoswe/budget.py:300-306 | that holds until a late worker reports for a job that runs again |
| Leaks.LiftRun | src/autoswe/repository.py:492-524 | every run of the model without late workers is a run of this one in which they stay idle |
| Leaks.ReportGivesBack | src/autoswe/metering.py:99-109 | after a late top-up of an ended or deleted job, the call it was made for balances the books again if and only if it uses all of it, and otherwise leaves exactly the rest reserved |
| Leaks.LateWorkerLeaves | src/autoswe/budget.py:282-306 | through any continuation that leaves its row alone, a late worker holds exactly what it topped up and has not reported, and exactly that is lost when it stops |
| Leaks.LateTopUpForGood | src/autoswe/budget.py:15-16 | of a late top-up from balanced books, once the worker has stopped, all is lost if and only if it reported nothing and none if and only if it reported that much; the exact amount in between |
| Leaks.StoppingLoses | src/autoswe/budget.py:15-16 | what a late worker has of its own when it stops is lost then, and comes back by unbacked takings alone |
| Leaks.DeletionLoses | src/autoswe/repository.py:214-216 | deleting a waiting job loses what it holds and deleting a running one nothing yet; exactly that and what is stranded later stays lost while takings are backed, and no less than unbacked takings leave otherwise |
| Leaks.EndedRowChanges | src/autoswe/repository.py:303-321 | the row of a succeeded or cancelled job changes if and only if a late worker of that job tops up, or reports tokens while the row holds some |
| Overshoot.MovesKeepBound | src/autoswe/budget.py:282-306 | the potential argument: no step raises spending plus what the remaining calls could add |
| Overshoot.OvershootBound | src/autoswe/budget.py:11-14 | with at most K holders at once and calls of at most M tokens, used plus reserved never exceeds the limit by more than M - 1 for each of the K jobs not holding a reservation |
| Overshoot.OneJobOvershootsLessThanOneCall | src/autoswe/budget.py:13-14 | with one job at a time the overshoot is less than one call |
| Seats.EveryRunIsSeated | src/autoswe/budget.py:142-157 | in every run no job holds more than one reservation's amount, and that amount for each holder lies within both the limit and what is spent |
| Seats.HoldersFit | src/autoswe/budget.py:142-157 | in every run no more jobs hold a reservation at once than reservations fit into the limit |
| Seats.OvershootOfPolicy | src/autoswe/budget.py:11-14 | the overshoot bound with nothing supposed about the number of holders: used plus reserved never exceeds the limit by more than M - 1 for each reservation that fits into it |
| OneCallBound.BoundIsAttained | docs/adr/0002-token-budgets-and-cost.md:45-46 | for every policy, limit and call size, and any number of jobs whose reservations fit into the limit, some run reaches the bound exactly |
| OneCallBound.OneCallBoundExactly | docs/adr/0002-token-budgets-and-cost.md:45-46 | the documented bound of one call holds if and only if the number of reservations that fit into the limit times M - 1 is at most M; with calls of three tokens or more, if and only if no two reservations fit |
| Lifecycle.StatusAfter | src/autoswe/repository.py:259-325 | the only moves a job's status can make, and which step makes each |
| Lifecycle.ReapOutcome | src/autoswe/repository.py:507-515 | the reaper fails exactly the selected jobs that are still running |
| Lifecycle.ClaimsMinusDepartures | src/autoswe/repository.py:259-325 | in every run, with SELECT and UPDATE of a claim apart, a job's claims minus its departures is 1 while it is running and 0 otherwise |
| Lifecycle.TerminalStates | src/autoswe/repository.py:303-313 | succeeded and cancelled are final, and failed is left only by the owner's retry |
| Lifecycle.OnlyWinnersWrite | src/autoswe/repository.py:303-325 | a transition changes jobs, ledger or events if and only if its guarded update or insertion went through: losers of a race and refused submissions or retries leave nothing behind, and no success goes unrecorded |
| Lifecycle.OneClaimWins | src/autoswe/repository.py:259-285 | in every run, between two successful claims of one job it has left the first worker's hands |
| Submissions.MoveKeepsInv | src/autoswe/api/jobs.py:130-174 | each step of any call of the endpoint, or of anything else, keeps: one job for the key, one creator, and every returned job is that one |
| Submissions.ReturnedJobsAgree | src/autoswe/api/jobs.py:106-113 | all calls that return a job return the same one, for the same request |
| Submissions.FoundJobIsHandedBack | src/autoswe/api/jobs.py:106-113 | a call that finds a job, at first or after losing the race, is handed it if and only if its request is the same, and told of the mismatch if and only if it is not |
| Submissions.OnlyItsCall | src/autoswe/api/jobs.py:122-174 | a move of a call changes that call alone, and never what it asked for |
| Submissions.MovesAreSteps | src/autoswe/api/jobs.py:122-174 | an insertion is the transaction that submits what its call asked for; the other moves of a call change no table |
| Submissions.NothingFoundGoesOn | src/autoswe/api/jobs.py:130-149 | a call that finds none may insert its job if and only if it was not throttled |
| Submissions.InsertionIsReported | src/autoswe/api/jobs.py:150-176 | an insertion is reported as created exactly if the job is there, as over budget exactly if its reservation did not fit, and else as lost |
| Submissions.EveryRetryGetsTheJob | src/autoswe/api/jobs.py:130-174 | over every interleaving each call that was neither throttled nor out of budget has been handed the key's one job if it made the same request, and told of a mismatch if it made another |
| Submissions.LosingInsertRollsBack | src/autoswe/repository.py:93-101 | only the insertion that created the job touched jobs, ledger or events |
| Submissions.LoserFindsWinner | src/autoswe/api/jobs.py:169-174 | after losing the race the second lookup finds a job |
| Submissions.EveryInterleaving | src/autoswe/api/jobs.py:122-174 | over every interleaving of submissions with one owner and key at most one insertion changes the tables |
| Sse.ParseSSE | frontend/src/lib/sse.ts:11-33 | the nested loops compute the events of the complete blocks and the unparsed tail |
| EventFormat.BlocksAreCut | frontend/src/lib/sse.ts:13-14 | blocks are the text between blank lines: together they are the text, none has a blank line in it, and each ends where the first blank line behind it begins |
| EventFormat.LinesAreCut | frontend/src/lib/sse.ts:20 | lines are the text between line ends |
| EventFormat.BlockMeans | frontend/src/lib/sse.ts:17-31 | a block is an event if and only if some line gives data: all the data in order, a line each, with the last id and the last type given, or `message`; comments and other fields mean nothing |
| EventFormat.TextMeans | frontend/src/lib/sse.ts:11-33 | a text parses to the events of its complete blocks in order, and to its last block as what is left |
| Sse.NormalisedConcat | frontend/src/lib/sse.ts:12 | normalising line ends chunk by chunk is right if and only if no CR LF is cut in two |
| Sse.BlocksConcat | frontend/src/lib/sse.ts:13-14 | only the last, incomplete block depends on what comes next |
| Sse.ParseConcat | frontend/src/lib/sse.ts:76-77 | parsing the carried tail with the next chunk loses and invents nothing |
| Sse.ChunkingIsInvisible | frontend/src/lib/sse.ts:72-77 | any chunking that cuts no CR LF yields the events and tail of the whole text |
| Sse.ChunksParse | frontend/src/lib/sse.ts:72-77 | any chunking whatever parses to the text in which a CR LF that was cut in two counts as two line ends |
| Sse.CutCRLFSplitsEvent | frontend/src/lib/sse.ts:12-13 | a chunk boundary inside a CR LF can turn one event into two |
| Sse.BodyIsOneEvent | src/autoswe/api/jobs.py:476-482 | a printed frame parses to exactly its id, event and data |
| Frames.RoundTrip | src/autoswe/api/jobs.py:476-482 | parsing any sequence of printed frames, retry and keep-alive frames among them, gives back exactly the printed triples, in order, with nothing left over |
| Delivery.EventOnTheWire | src/autoswe/api/jobs.py:472-482 | the exact bytes of an event |
| Delivery.OthersOnTheWire | src/autoswe/api/jobs.py:521-549 | the exact bytes of the end, the retry hint and the keep-alive |
| Frames.PrefixParses | frontend/src/lib/sse.ts:10-33 | whatever prefix has arrived parses to the events of the complete frames |
| Frames.NextChunk | frontend/src/lib/sse.ts:74-78 | each chunk yields exactly the frames it completes |
| Delivery.AfterDrop | src/autoswe/repository.py:242-251 | moving the cursor to an event of the result leaves exactly the events behind it |
| Delivery.Generator.Poll | src/autoswe/api/jobs.py:531-545 | one round writes the batch in order, moves the cursor to its last event, and ends only for a deleted job or a terminal one with an empty batch |
| Delivery.PollWrites | src/autoswe/api/jobs.py:536-545 | a poll writes its batch, an event a frame in order, then `deleted` for a job that is gone or the final status of a finished one without further events, and nothing else |
| Delivery.BatchIsFirst | src/autoswe/repository.py:242-251 | a batch is the first two hundred later events, or all of them |
| Delivery.Client.Receive | frontend/src/lib/sse.ts:74-89 | a chunk is parsed with the carried buffer; events are handed on and the last id moves, up to the first end |
| Delivery.HandedOn | frontend/src/lib/sse.ts:79-89 | events before the first end whose data is JSON are handed on, each once, in order, with type, data and number; the end, if any, ends the stream |
| Delivery.LastIdIs | frontend/src/lib/sse.ts:86 | the last number among their ids becomes the last id |
| Delivery.Client.Connect | frontend/src/lib/sse.ts:61-72 | a new connection asks for what follows the last id, with an empty buffer |
| Delivery.HeaderRoundTrip | src/autoswe/api/jobs.py:493-499 | the client's Last-Event-ID header reads back as its last id and wins over `after` |
| Delivery.CursorOfRequest | src/autoswe/api/jobs.py:493-499 | a request is answered from its header's number if it has one, else from `after` if that is given, else from the beginning |
| ExactlyOnce.StepKeepsInv | src/autoswe/api/jobs.py:527-552 | publications, polls, keep-alives, arriving characters, dropped and new connections, and deletion keep client, wire and log in step |
| ExactlyOnce.DeliveredIsPrefix | src/autoswe/api/jobs.py:516-520 | in every run what the client was handed, followed by the log after its last id, is the log after its start cursor: no gap, no duplicate, in order |
| ExactlyOnce.EndIsExact | src/autoswe/api/jobs.py:534-545 | a poll that ends the stream for a terminal status has sent everything committed when it read that status if and only if the job still existed at its second read or nothing of that was left to send |
| ExactlyOnce.EndComesLast | src/autoswe/api/jobs.py:534-545 | in every run, once the client has the end, a poll read its status at one step and the events at a later one; for a terminal status, everything committed by the first, the event that announced it included, lies at or before the client's last id if and only if the job still existed at the second or nothing of that was left to send, whatever happened later |
| Liveness.DeletionLosesTheRest | src/autoswe/api/jobs.py:536-544 | for any finished job and any start cursor some run, with a deletion between the two reads of a poll, shows the client the end with the job's status, hands it nothing and leaves every later event behind its last id |
| Liveness.FailureNeverDelivered | src/autoswe/api/jobs.py:536-544 | the smallest such case: the stream says failed and the job.failed event was never delivered |
| Liveness.EveryRunCanDeliverAll | src/autoswe/api/jobs.py:516-520 | progress: from every reachable moment while the job exists and the stream has not ended, some continuation hands the client the whole log after its start cursor and, for a finished job, its end |
| Paths.NormalizeIdempotent | src/autoswe/pipeline/validation.py:87-106 | a normalised path is safe as it stands and normalises to itself |
| Paths.KeptPathsAreSafe | src/autoswe/pipeline/validation.py:77-106 | a file system that follows a kept path from the project's root ends at just that path and never leaves the project, at most eight segments deep; no segment is a device, is renamed by Windows or is a repository's own directory, and every character can be stored |
| Paths.NormalizedExactly | src/autoswe/pipeline/validation.py:77-106 | a path is accepted if and only if, stripped, it is such a path: none that is safe on every system is turned away |
| Paths.SanitizeFiles | src/autoswe/pipeline/validation.py:114-150 | the loop with its replaced duplicates and early breaks computes the specified list and issues |
| Paths.SanitizedIsClean | src/autoswe/pipeline/validation.py:114-150 | for any input the kept paths are normalised with pairwise distinct keys, at most max_files, each within max_file_bytes and together within max_total_bytes |
| Paths.SanitizeIdempotent | src/autoswe/pipeline/validation.py:114-150 | running it on its own output changes nothing and reports nothing |
| Paths.SanitizedComesFromInput | src/autoswe/pipeline/validation.py:148 | every kept file is an input file under its normalised path |
| Sanitizing.KeptExactly | src/autoswe/pipeline/validation.py:114-150 | unless a limit stops it, exactly the last usable file of every name is kept, under its normalised path |
| Sanitizing.StopsExactly | src/autoswe/pipeline/validation.py:142-147 | it stops exactly at the first usable file that is one too many or makes the batch too large, and keeps what it had |
| Sanitizing.ReportsExactly | src/autoswe/pipeline/validation.py:122-141 | unless a limit stops it, every unsafe path, every file too large and, as a warning, every file that replaces another is reported, and nothing else |
| Ownership.OwnersAreDisjoint | src/autoswe/pipeline/agents.py:37-50 | no path is both the platform's and a delivery file |
| Ownership.OwnersByName | src/autoswe/pipeline/agents.py:33-50 | who owns a path, by its name regardless of case: three names are the platform's, four beginnings the delivery files', everything else the code generator's |
| Ownership.MergeChangesAccepted | src/autoswe/pipeline/agents.py:82-98 | a merge changes exactly the accepted paths, each to a sanitised file from this stage |
| Ownership.MergeTakesAccepted | src/autoswe/pipeline/agents.py:82-98 | of the sanitised files a merge takes each one that the stage may merge and its filter keeps, as it is, and no other |
| Ownership.MergeKeepsOwnership | src/autoswe/pipeline/agents.py:82-98 | merging only a stage's own paths keeps every path with the one stage that owns it |
| Pipeline.PipelineState.Merge | src/autoswe/pipeline/agents.py:82-98 | the loop merges the accepted files, lists accepted and dropped paths and adds the issues to `rejected` |
| Pipeline.PipelineState.Validate | src/autoswe/pipeline/agents.py:100-104 | stores a report of everything rejected so far and of the checks on the current files |
| Repairs.RepairStaysHome | src/autoswe/pipeline/agents.py:327-330 | a repair of a stored file is merged under the stage the file came from and touches no other path |
| Repairs.CheckTurnIs | src/autoswe/pipeline/agents.py:292-332 | one turn of the check loop: exactly the stored files that an error of the present report names are sent, the model's answer to just that is taken where it differs, and there is another turn if and only if that changed something; no turn exactly if no error names a stored file |
| Repairs.CheckRoundsAre | src/autoswe/pipeline/agents.py:292-332 | every round of the loop is such a turn, from what the one before left, and no more than max_repair_rounds |
| Repairs.CheckRoundsEnd | src/autoswe/pipeline/agents.py:292-332 | the loop ends only with its rounds used up, with no error naming a stored file, or after a request that failed or changed nothing |
| Repairs.LastFittingFileStays | src/autoswe/pipeline/agents.py:327-330 | after a repair each path holds the last answered file for it that fits the limits, or what it held before |
| Repairs.EveryUnfitIsRejected | src/autoswe/pipeline/agents.py:327-330 | each answered file that does not fit the limits leaves one error among the rejections, and nothing else does |
| Review.RepairChecks | src/autoswe/pipeline/agents.py:292-332 | the loop makes exactly the turns of `Repairs.CheckTurnIs` and ends as `Repairs.CheckRoundsEnd` says; the report describes the final files; exactly the paths reported changed, none was added or removed; owners are kept; it fails exactly if the last request did |
| Repairs.PickedIsExact | src/autoswe/pipeline/agents.py:464-480 | the files sent are the distinct stored non-delivery candidates, none passed over, earlier ones first |
| Repairs.SentAreTheFirst | src/autoswe/pipeline/agents.py:464-480 | of these all are sent, or the first twelve if there are more |
| Review.FilesForTestRepair | src/autoswe/pipeline/agents.py:464-480 | sends what `Repairs.SentAreTheFirst` says, of what the run mentions and then all sources |
| Repairs.TestRepairIsConfined | src/autoswe/pipeline/agents.py:417-426 | whatever the model answers, a test repair changes only allowed paths, all owned by the code generator |
| Repairs.TestRepairTakes | src/autoswe/pipeline/agents.py:417-426 | of the new or changed files in an answer that pass sanitising it takes exactly those that the code generator owns and that were sent or are new, as they are |
| Repairs.TestTurnIs | src/autoswe/pipeline/agents.py:375-428 | one turn of the test loop: a failing, repairable run of the present files leads to a request for the files it is about, whose answer is taken as `Repairs.TestRepairTakes` says; another turn if and only if something was taken; no turn exactly if the run passes or fails beyond repair |
| Repairs.TestRoundsAre | src/autoswe/pipeline/agents.py:375-428 | every round of the loop is such a turn, from what the one before left, and no more than max_test_repair_rounds |
| Repairs.TestRoundsEnd | src/autoswe/pipeline/agents.py:375-428 | the loop ends only with its rounds used up, with files that pass or fail beyond repair, or after a request that failed or of whose answer nothing was taken |
| Review.RepairTests | src/autoswe/pipeline/agents.py:395-427 | one round does the turn of `Repairs.TestTurnIs`, and without an accepted file nothing changes |
| Review.TestAndRepair | src/autoswe/pipeline/agents.py:375-428 | the loop makes exactly the turns of `Repairs.TestTurnIs`; one more sandbox run than turns that changed something; the last run and the report are about the final files; the budget is reported exhausted exactly when it was used up on a repairable failure |
| Repairs.UpsertMatchesMemory | src/autoswe/pipeline/agents.py:369-373 | storing the reported paths over the stored files makes them equal to memory |
| Review.Run | src/autoswe/pipeline/agents.py:286-373 | a normal end means: the two loops ran in turn from what was there; checks, last sandbox run and the one request for a verdict are all about the final files; the reported paths cover every change; the score is the model's, brought to 0 or 100 if it lies beyond; owners are kept. It fails exactly if a document is missing or the last request failed |
| Stages.RunAgent | src/autoswe/pipeline/agents.py:136-278 | one agent before the review changes memory as specified and reports the accepted paths, or fails when an earlier document is missing |
| Stages.StageKeepsToItsPaths | src/autoswe/pipeline/agents.py:232-271 | whatever the model answers, a stage merges only paths it owns |
| Stages.StageTakesItsFiles | src/autoswe/pipeline/agents.py:232-271 | of what its agent answers a stage takes every sanitised file that it owns, as it is, and no other |
| Stages.AgentsAnswers | src/autoswe/pipeline/agents.py:136-278 | what each agent is shown and where its answer goes |
| Stages.ArchitectWritesDocuments | src/autoswe/pipeline/agents.py:180-197 | the architect leaves the overview, the architecture and the requirements under the platform's three names |
| Stages.StagesAreDisjoint | src/autoswe/pipeline/agents.py:82-98 | no stage overwrites a file of an earlier one; it only adds files of its own |
| Stages.OwnershipPartition | src/autoswe/pipeline/agents.py:82-98 | after every stage each file's origin is the owner of its path, a stage that has run |
| Collisions.MergeKeepsKeysDistinct | src/autoswe/pipeline/agents.py:82-98 | after a merge no two files of the whole project are one file on a case-insensitive system if and only if no accepted path is another spelling of a stored one |
| Collisions.StagesNeverCollide | src/autoswe/pipeline/agents.py:82-98 | whatever the models answer, after every stage before the review no two files of the project collide |
| Collisions.TestRepairKeepsKeysDistinct | src/autoswe/pipeline/agents.py:421-422 | a test repair keeps that if and only if no file it newly adds is another spelling of a stored one |
| Collisions.TestRepairCanCollide | src/autoswe/pipeline/agents.py:421-422 | it can fail: a repair answering readme.md beside a stored README.md leaves both |
| PlatformNames.RealRulesAreSensible | src/autoswe/pipeline/agents.py:180-197 | the platform's file names pass the path rules unchanged, so the results about stages apply to the real rules |
| Checkpoints.JobStore.UpsertFiles | src/autoswe/repository.py:355-374 | deleting and inserting the batch overrides exactly its paths |
| Checkpoints.JobStore.Requeue | src/autoswe/repository.py:391-419 | keeps rows, marks and documents of succeeded stages and clears the rest |
| Checkpoints.JobStore.DiscardFiles | src/autoswe/repository.py:231-236 | keeps exactly the files of the given stages |
| Checkpoints.PersistStage | src/autoswe/pipeline/orchestrator.py:399-436 | the three commits in order: files, documents, the stage's mark |
| Checkpoints.RestoreDocuments | src/autoswe/pipeline/orchestrator.py:253-267 | walks the stages up to the first that did not succeed or lost its document |
| Checkpoints.Restore | src/autoswe/pipeline/orchestrator.py:246-280 | memory is rebuilt from the restored stages' rows and the other rows are discarded |
| Checkpoints.RestoreExactly | src/autoswe/pipeline/orchestrator.py:246-280 | from any rows whatever: which stages are taken back, their documents and files, which files are discarded, and that nothing else changes |
| Checkpoints.RequeueExactly | src/autoswe/repository.py:376-419 | from any rows whatever a requeue leaves exactly the files, marks and documents of the stages that succeeded |
| Resume.FirstCommit | src/autoswe/pipeline/orchestrator.py:411 | storing a stage's files on top of the earlier ones gives exactly the files in memory |
| Resume.CrashSafety | src/autoswe/pipeline/orchestrator.py:409-436 | for every stage before the review and every point between its commits, requeueing leaves exactly the checkpoint of the stages before it, whatever the other marks say |
| Resume.RestoreIsExact | src/autoswe/pipeline/orchestrator.py:246-280 | restoring a checkpoint gives exactly the memory of an uninterrupted run and changes no row |
| Resume.StepKeepsInv | src/autoswe/pipeline/orchestrator.py:308-436 | claims, agent runs, commits, marks and requeues keep rows and memory at a checkpoint |
| Resume.ResumeEquivalence | src/autoswe/pipeline/orchestrator.py:246-252 | after any number of interruptions a stage starts with the requirements, architecture, files and origins of one uninterrupted run |
| Resume.RequeueLeavesACheckpoint | src/autoswe/repository.py:376-383 | a requeue leaves nothing of an unfinished stage and loses nothing of a finished one |
| Resume.AttemptsGoOn | src/autoswe/pipeline/orchestrator.py:359-391 | no attempt gets stuck: the next agent finds its documents, the next commit its files |
| Resume.FinishedStagesStayFinished | src/autoswe/repository.py:377-381 | a stored stage is never run again |
| Latecomers.LateCommitsKeepCheckpoint | src/autoswe/pipeline/orchestrator.py:399-436 | a worker that lost its job and makes the rest of a stage's commits, whatever the present worker has made of them, leaves a checkpoint the next attempt restores rightly if and only if it makes all of them, or the files are stored or there are none, or only the mark of an architecture without its document was left |
| Latecomers.LateAfterRequeue | docs/adr/0009-resumable-jobs.md:21-26 | in every run: the attempt after a requeue between two commits, which the late worker completes, starts as in the uninterrupted run if and only if none had been made, or the stage has no files, or only the architecture's mark was left |
| Latecomers.StoredAgain | src/autoswe/pipeline/orchestrator.py:399-436 | storing a stage again that the present worker has stored changes nothing |
| Paging.RestIsOlder | src/autoswe/repository.py:132-139 | the rows after a place of the listing are the rows older than the one before it |
| Paging.QueryIsBounded | src/autoswe/repository.py:122-139 | a query returns the newest rows, as many as asked for or all there are |
| Paging.PageAndRest | src/autoswe/api/jobs.py:199-208 | a page is the next piece of the listing, its cursor stands for exactly the rest, and there is no cursor exactly when nothing is left |
| Paging.PagesAreTheListing | src/autoswe/repository.py:130-139 | following cursors terminates and the pages concatenate to the listing |
| Paging.EveryJobOnce | src/autoswe/repository.py:130-131 | every job of the owner is shown exactly once, newest first, for any page size and any ties |
| Paging.NewJobsDoNotDisturb | src/autoswe/repository.py:130-139 | jobs added while paging do not change the remaining pages |
| Paging.TimeAloneNeedsNoTies | src/autoswe/repository.py:137-138 | a cursor of the time alone shows the same rest if and only if no job left to show shares that time |

## Left out

- Ledger and queue: one committed transaction is one step and a rollback is none; sessions, dialects, isolation levels and worker heartbeats are not modelled, nor are the ledger's cost and call counters.
- The claim's choice of the oldest due job: a worker may pick any job, which allows more runs than the query does.
- Workers that go on after their job left running: in `Runs` a guard disappears with its job's claim, so `Conservation.EveryRunConserves` and the overshoot bound exclude late reports and top-ups; `LateWorkers` and `Leaks` have them. `Resume` has one worker at a time, and `Latecomers` adds one stage's late commits to it; a late worker that runs further stages beside the job's new one is outside it.
- The reaper's several transactions: the skipping of unfinished stages comes in later ones, of which the outcome is stated.
- Deleting a job while others submit with its key, report or stream: submissions assume no deletion; the ledger's and the stream's exposure are the lemmas `Conservation.DeletedJob`, `Leaks.DeletionLoses`, `ExactlyOnce.EndIsExact` and `Liveness.DeletionLosesTheRest`.
- LateWorkers.EveryMoveAccounts: a new job's id is never that of a job a late worker still has; a call that fails after its top-up is a worker that stops without reporting.
- Limits that change while jobs run: the limits are fixed, and a job keeps its period until its owner retries it.
- Interruption during or after the review stage's own persistence: its repaired files are stored under the review stage and purged on a requeue; the checkpoint results cover the four stages before it.
- Checkpoints whose stored document no longer validates after an upgrade: a missing document stops the restore, an invalid one is not modelled.
- `rejected` and the order of files across a resume: neither is restored, so files are compared as maps, and the checks and the sandbox are functions of the map.
- File count and total size of a whole project: `sanitize_files` bounds one batch, and the pipeline does not bound its batches together.
- Agents that answer equal prompts differently: resume equivalence is about deterministic agents; ownership and the review results hold for arbitrary answers.
- Review.Run: errors other than a missing document or a failed model call, token usage and log messages are left out; after a test repair that was not usable, `rejected` may have grown since the report was made.
- Stages.StagesAreDisjoint: needs path rules that leave the platform's three file names unchanged; `PlatformNames.RealRulesAreSensible` shows that the real rules do.
- Relations.NormaliseIsMaximalAcyclic: for entities with distinct names; with repeated names acyclicity and the creation order are proved, which edges survive is not.
- Column types and literal template text: a table is its columns, references and indexes, and the schema results hold for any spelling of names.
- Names.WellNamedInWords: entity names whose letters outside ASCII change to ASCII ones in lower case, or that end in a line break, are spelled as if they did not.
- Go: integers beyond 2 to the power 53, where ids and decoded numbers stop being exact, locks and concurrent handlers, listing with filters, decoding of request bodies.
- The stream's timing: keep-alives may come at any time, polls and reconnections at any moment; the bytes of a character arrive together; JSON text is a single line and only its parsing success matters; event ids are exact, while the client's `Number` loses precision above 2 to the power 53.
- ExactlyOnce.DeliveredIsPrefix: events become visible in the order of their ids; a database that commits them out of order is outside it.
- Delivery.LastIdIs: an id that is no decimal number, which the server never writes, counts as none.
- Responses that fail, and the client giving up on a 4xx status or an abort: they are a connection that never opens or is dropped.
- Sandbox processes, publishing, HTTP, tracing, metrics, prompts, file-format checks and secret patterns, the pages and the build scripts.
- Pricing, settings, capped reads and similar functions: they would only add easy members.
