/** A job's stored checkpoints: the rows a stage is persisted to, what requeueing clears and what
    restoring reads back. Models `_persist_stage` and `_restore` of
    src/autoswe/pipeline/orchestrator.py and `upsert_files`, `discard_files`, `update_stage` and
    `_requeue` of src/autoswe/repository.py, for one job. */
module Checkpoints {
  import opened Options
  import opened Paths
  import opened Ownership
  import opened Pipeline
  import opened Stages

  datatype StageStatus = Pending | Running | Succeeded | Failed | Skipped

  datatype FileRow = FileRow(content: string, description: string, stage: Stage)

  /** One status per stage, in pipeline order. */
  type Statuses = s: seq<StageStatus> | |s| == 5 witness [Pending, Pending, Pending, Pending, Pending]

  const ALL_PENDING: Statuses := [Pending, Pending, Pending, Pending, Pending]

  datatype Rows = Rows(
    files: map<string, FileRow>, status: Statuses, requirements: Option<Document>, architecture: Option<Document>)

  function RowOf(file: File, stage: Stage): FileRow {
    FileRow(file.content, file.description, stage)
  }

  function FileOf(path: string, row: FileRow): File {
    File(path, row.content, row.description)
  }

  // ------------------------------------------------------------------ what each transaction does

  function Batch(paths: seq<string>, files: map<string, File>, stage: Stage): map<string, FileRow>
    requires forall p :: p in paths ==> p in files
  {
    map p | p in paths :: RowOf(files[p], stage)
  }

  /** First commit: the stage's files. */
  function WithFiles(rows: Rows, paths: seq<string>, files: map<string, File>, stage: Stage): Rows
    requires forall p :: p in paths ==> p in files
  {
    rows.(files := rows.files + Batch(paths, files, stage))
  }

  /** Second commit: the stage's document on the job row. */
  function WithDocuments(rows: Rows, m: Memory, stage: Stage): Rows {
    if stage.Analyze? && m.requirements.Some? then rows.(requirements := m.requirements)
    else if stage.Architect? && m.architecture.Some? then rows.(architecture := m.architecture)
    else rows
  }

  /** Third commit, and every other change of one stage's status. */
  function WithStatus(rows: Rows, stage: Stage, status: StageStatus): Rows {
    rows.(status := rows.status[IndexOf(stage) := status])
  }

  predicate Done(rows: Rows, stage: Stage) {
    rows.status[IndexOf(stage)].Succeeded?
  }

  function WithoutFiles(rows: Rows, keep: set<Stage>): Rows {
    rows.(files := map p | p in rows.files && rows.files[p].stage in keep :: rows.files[p])
  }

  function DoneStages(rows: Rows): set<Stage> {
    set i | 0 <= i < 5 && rows.status[i].Succeeded? :: STAGES[i]
  }

  function Reset(status: Statuses): Statuses {
    seq(5, i requires 0 <= i < 5 => if status[i].Succeeded? then Succeeded else Pending)
  }

  /** `_requeue`: keep what succeeded stages left, clear everything else. */
  function Requeued(rows: Rows): Rows {
    Rows(WithoutFiles(rows, DoneStages(rows)).files,
         Reset(rows.status),
         if Done(rows, Analyze) then rows.requirements else None,
         if Done(rows, Architect) then rows.architecture else None)
  }

  /** Whether stage `i` can be restored: it succeeded, and its document is there. */
  predicate Restorable(rows: Rows, i: nat)
    requires i < 5
  {
    rows.status[i].Succeeded? && (i == 0 ==> rows.requirements.Some?) && (i == 1 ==> rows.architecture.Some?)
  }

  /** How many stages `_restore` takes back, walking from stage `i`. */
  function RestoredFrom(rows: Rows, i: nat): (n: nat)
    requires i <= 5
    ensures i <= n <= 5
    decreases 5 - i
  {
    if i == 5 || !Restorable(rows, i) then i else RestoredFrom(rows, i + 1)
  }

  function FirstStages(n: nat): set<Stage>
    requires n <= 5
  {
    set i | 0 <= i < n :: STAGES[i]
  }

  function TreeOf(rows: map<string, FileRow>): Tree {
    Tree(map p | p in rows :: FileOf(p, rows[p]), map p | p in rows :: rows[p].stage)
  }

  function RestoredTree(rows: Rows, keep: set<Stage>): Tree {
    TreeOf(WithoutFiles(rows, keep).files)
  }

  function RestoredMemory(rows: Rows): Memory {
    var n := RestoredFrom(rows, 0);
    Memory(if n >= 1 then rows.requirements else None, if n >= 2 then rows.architecture else None,
           RestoredTree(rows, FirstStages(n)))
  }

  function AfterRestore(rows: Rows): Rows {
    if DoneStages(rows) == {} then rows else WithoutFiles(rows, FirstStages(RestoredFrom(rows, 0)))
  }

  lemma BatchNext(base: map<string, FileRow>, paths: seq<string>, from: map<string, File>, stage: Stage, i: nat)
    requires i < |paths| && forall p :: p in paths ==> p in from
    ensures base + Batch(paths[..i + 1], from, stage)
      == (base + Batch(paths[..i], from, stage))[paths[i] := RowOf(from[paths[i]], stage)]
  {
    assert paths[..i + 1] == paths[..i] + [paths[i]];
  }

  lemma DeleteThenInsert(base: map<string, FileRow>, paths: seq<string>, from: map<string, File>, stage: Stage)
    requires forall p :: p in paths ==> p in from
    ensures (base - set p | p in paths) + Batch(paths, from, stage) == base + Batch(paths, from, stage)
  {
  }

  // ------------------------------------------------------------------ the repository, statement by statement

  class JobStore {
    var files: map<string, FileRow>
    var status: Statuses
    var requirements: Option<Document>
    var architecture: Option<Document>

    constructor ()
      ensures Now() == Rows(map[], ALL_PENDING, None, None)
    {
      files, status, requirements, architecture := map[], ALL_PENDING, None, None;
    }

    function Now(): Rows
      reads this
    {
      Rows(files, status, requirements, architecture)
    }

    method UpsertFiles(paths: seq<string>, from: map<string, File>, stage: Stage)
      requires forall p :: p in paths ==> p in from
      modifies this`files
      ensures Now() == WithFiles(old(Now()), paths, from, stage)
    {
      if paths == [] {
        assert files + Batch(paths, from, stage) == files;
        return;
      }
      ghost var left := files - set p | p in paths;
      files := files - (set p | p in paths);
      assert files == left + Batch(paths[..0], from, stage);
      for i := 0 to |paths|
        invariant files == left + Batch(paths[..i], from, stage)
      {
        BatchNext(left, paths, from, stage, i);
        files := files[paths[i] := RowOf(from[paths[i]], stage)];
      }
      assert paths[..|paths|] == paths;
      DeleteThenInsert(old(files), paths, from, stage);
    }

    method UpdateJob(m: Memory, stage: Stage)
      modifies this`requirements, this`architecture
      ensures Now() == WithDocuments(old(Now()), m, stage)
    {
      if stage.Analyze? && m.requirements.Some? {
        requirements := m.requirements;
      }
      if stage.Architect? && m.architecture.Some? {
        architecture := m.architecture;
      }
    }

    method UpdateStage(stage: Stage, s: StageStatus)
      modifies this`status
      ensures Now() == WithStatus(old(Now()), stage, s)
    {
      status := status[IndexOf(stage) := s];
    }

    method DiscardFiles(keep: set<Stage>)
      modifies this`files
      ensures Now() == WithoutFiles(old(Now()), keep)
    {
      files := map p | p in files && files[p].stage in keep :: files[p];
    }

    /** What `_requeue` does once its compare-and-set on the job's status has won. */
    method Requeue()
      modifies this
      ensures Now() == Requeued(old(Now()))
    {
      var done := DoneStages(Now());
      DiscardFiles(done);
      status := Reset(status);
      assert forall s :: s in done <==> old(Done(Now(), s)) by { DoneStagesAre(old(Now())); }
      if Analyze !in done {
        requirements := None;
      }
      if Architect !in done {
        architecture := None;
      }
    }
  }

  lemma DoneStagesAre(rows: Rows)
    ensures forall s :: s in DoneStages(rows) <==> Done(rows, s)
  {
    forall s ensures s in DoneStages(rows) <==> Done(rows, s) {
      if s in DoneStages(rows) {
        var i :| 0 <= i < 5 && rows.status[i].Succeeded? && STAGES[i] == s;
      }
      assert STAGES[IndexOf(s)] == s;
    }
  }

  // ------------------------------------------------------------------ the orchestrator

  method PersistStage(store: JobStore, state: PipelineState, stage: Stage, paths: seq<string>)
    requires forall p :: p in paths ==> p in state.files
    modifies store
    ensures store.Now() ==
      WithStatus(WithDocuments(WithFiles(old(store.Now()), paths, state.files, stage),
        MemoryOf(state), stage), stage, Succeeded)
  {
    store.UpsertFiles(paths, state.files, stage);
    store.UpdateJob(Memory(state.requirements, state.architecture, state.Now()), stage);
    store.UpdateStage(stage, Succeeded);
  }

  /** `list_files` in any order. */
  ghost predicate Lists(rows: seq<string>, files: map<string, FileRow>) {
    && (forall p :: p in files <==> p in rows)
  }

  /** The rows seen so far that belong to a restored stage. */
  function Wanted(rows: map<string, FileRow>, keep: set<Stage>, listed: seq<string>): map<string, FileRow> {
    map p | p in listed && p in rows && rows[p].stage in keep :: rows[p]
  }

  lemma WantedNext(rows: map<string, FileRow>, keep: set<Stage>, listed: seq<string>, i: nat)
    requires i < |listed| && listed[i] in rows
    ensures Wanted(rows, keep, listed[..i + 1]) ==
      if rows[listed[i]].stage in keep
        then Wanted(rows, keep, listed[..i])[listed[i] := rows[listed[i]]]
        else Wanted(rows, keep, listed[..i])
  {
    assert listed[..i + 1] == listed[..i] + [listed[i]];
  }

  lemma TreeNext(rows: map<string, FileRow>, path: string, row: FileRow)
    ensures TreeOf(rows[path := row]) ==
      Tree(TreeOf(rows).files[path := FileOf(path, row)], TreeOf(rows).origin[path := row.stage])
  {
    assert TreeOf(rows[path := row]).files == TreeOf(rows).files[path := FileOf(path, row)];
    assert TreeOf(rows[path := row]).origin == TreeOf(rows).origin[path := row.stage];
  }

  method RestoreFiles(store: JobStore, state: PipelineState, keep: set<Stage>, listed: seq<string>)
    requires state.Now() == Tree(map[], map[]) && Lists(listed, store.files)
    modifies state`files, state`origin
    ensures state.Now() == RestoredTree(store.Now(), keep)
  {
    ghost var rows := store.files;
    for i := 0 to |listed|
      invariant state.Now() == TreeOf(Wanted(rows, keep, listed[..i]))
    {
      var path := listed[i];
      var row := store.files[path];
      WantedNext(rows, keep, listed, i);
      TreeNext(Wanted(rows, keep, listed[..i]), path, row);
      if row.stage in keep {
        state.files := state.files[path := FileOf(path, row)];
        state.origin := state.origin[path := row.stage];
      }
    }
    assert listed[..|listed|] == listed;
    assert Wanted(rows, keep, listed) == WithoutFiles(store.Now(), keep).files;
  }

  method RestoreDocuments(store: JobStore, state: PipelineState) returns (restored: nat)
    requires state.requirements == state.architecture == None
    modifies state`requirements, state`architecture
    ensures restored == RestoredFrom(store.Now(), 0)
    ensures state.requirements == RestoredMemory(store.Now()).requirements
    ensures state.architecture == RestoredMemory(store.Now()).architecture
  {
    restored := 0;
    ghost var rows := store.Now();
    while restored < 5 && store.status[restored].Succeeded?
      invariant 0 <= restored <= 5
      invariant RestoredFrom(rows, restored) == RestoredFrom(rows, 0)
      invariant state.requirements == if restored >= 1 then rows.requirements else None
      invariant state.architecture == if restored >= 2 then rows.architecture else None
    {
      if restored == 0 {
        if store.requirements.None? { break; }
        state.requirements := store.requirements;
      } else if restored == 1 {
        if store.architecture.None? { break; }
        state.architecture := store.architecture;
      }
      restored := restored + 1;
    }
  }

  method Restore(store: JobStore, state: PipelineState, listed: seq<string>) returns (restored: nat)
    requires MemoryOf(state) == Memory(None, None, Tree(map[], map[])) && Lists(listed, store.files)
    modifies store, state
    ensures restored == RestoredFrom(old(store.Now()), 0)
    ensures MemoryOf(state) == RestoredMemory(old(store.Now()))
    ensures store.Now() == AfterRestore(old(store.Now()))
  {
    restored := RestoreDocuments(store, state);
    if DoneStages(store.Now()) == {} {
      NothingDoneNothingRestored(store.Now());
      return;
    }
    RestoreFiles(store, state, FirstStages(restored), listed);
    store.DiscardFiles(FirstStages(restored));
  }

  lemma NothingDoneNothingRestored(rows: Rows)
    requires DoneStages(rows) == {}
    ensures RestoredFrom(rows, 0) == 0 && RestoredMemory(rows) == Memory(None, None, Tree(map[], map[]))
  {
    assert !Done(rows, Analyze) by { DoneStagesAre(rows); }
    assert FirstStages(0) == {};
  }

  // ------------------------------------------------------------------ whatever was stored

  /** Stage `i` can be taken back. */
  ghost predicate TakenBack(rows: Rows, i: nat)
    requires i < 5
  {
    && rows.status[i] == Succeeded
    && (STAGES[i] == Analyze ==> rows.requirements != None) && (STAGES[i] == Architect ==> rows.architecture != None)
  }

  lemma {:induction false} WalkStops(rows: Rows, i: nat)
    requires i <= 5
    ensures forall k :: i <= k < RestoredFrom(rows, i) ==> TakenBack(rows, k)
    ensures RestoredFrom(rows, i) < 5 ==> !TakenBack(rows, RestoredFrom(rows, i))
    decreases 5 - i
  {
    if i < 5 && Restorable(rows, i) { WalkStops(rows, i + 1); }
  }

  lemma InFirstStages(n: nat, stage: Stage)
    requires n <= 5
    ensures stage in FirstStages(n) <==> IndexOf(stage) < n
  {
    assert STAGES[IndexOf(stage)] == stage;
    if stage in FirstStages(n) {
      var i :| 0 <= i < n && STAGES[i] == stage;
    }
  }

  /** From any rows whatever, restoring takes back the stages before the first that did not succeed or lost its
      document: their documents, and their files as they were stored. If any stage has succeeded it discards every
      other file, and it changes nothing else. */
  lemma RestoreExactly(rows: Rows, path: string)
    ensures var n, m, after := RestoredFrom(rows, 0), RestoredMemory(rows), AfterRestore(rows);
      && n <= 5 && (forall k :: 0 <= k < n ==> TakenBack(rows, k)) && (n < 5 ==> !TakenBack(rows, n))
      && m.requirements == (if n > 0 then rows.requirements else None)
      && m.architecture == (if n > 1 then rows.architecture else None)
      && (path in m.tree.files <==> path in rows.files && IndexOf(rows.files[path].stage) < n)
      && (path in m.tree.files ==>
           var row := rows.files[path];
           && m.tree.files[path] == File(path, row.content, row.description)
           && path in m.tree.origin && m.tree.origin[path] == row.stage)
      && after == Rows(after.files, rows.status, rows.requirements, rows.architecture)
      && (path in after.files <==>
           path in rows.files && (path in m.tree.files || forall k :: 0 <= k < 5 ==> rows.status[k] != Succeeded))
      && (path in after.files ==> after.files[path] == rows.files[path])
  {
    WalkStops(rows, 0);
    if path in rows.files { InFirstStages(RestoredFrom(rows, 0), rows.files[path].stage); }
    if k :| 0 <= k < 5 && rows.status[k] == Succeeded { assert STAGES[k] in DoneStages(rows); }
  }

  /** From any rows whatever, requeueing leaves the files, marks and documents of the stages that succeeded, and
      no others. */
  lemma RequeueExactly(rows: Rows, path: string, i: nat)
    requires i < 5
    ensures var after := Requeued(rows);
      && after.status[i] == (if rows.status[i] == Succeeded then Succeeded else Pending)
      && (path in after.files <==> path in rows.files && rows.status[IndexOf(rows.files[path].stage)] == Succeeded)
      && (path in after.files ==> after.files[path] == rows.files[path])
      && after.requirements == (if rows.status[0] == Succeeded then rows.requirements else None)
      && after.architecture == (if rows.status[1] == Succeeded then rows.architecture else None)
  {
    DoneStagesAre(rows);
  }
}
