/** Two workers on one job's checkpoints: one that lost its claim while it stored a stage, and goes on, and
    the job's next attempt. Models `_persist_stage` of src/autoswe/pipeline/orchestrator.py, whose commits
    do not ask who has the job. */
module Latecomers {
  import opened Options
  import opened Paths
  import opened Ownership
  import opened Pipeline
  import opened Stages
  import opened Checkpoints
  import opened Resume

  /** What is left of storing stage `k` after its first `c` commits, made on the rows as they are by now. */
  function LateCommits(setup: Setup, rows: Rows, k: nat, c: nat): Rows
    requires Sensible(setup) && k < 4 && c < 3
  {
    FirstCommit(setup, k);
    var m, paths := MemoryAt(setup, k + 1), Produced(setup, k, MemoryAt(setup, k));
    var first := if c == 0 then AfterCommit(rows, STAGES[k], m, paths, 0) else rows;
    var second := if c <= 1 then AfterCommit(first, STAGES[k], m, paths, 1) else first;
    AfterCommit(second, STAGES[k], m, paths, 2)
  }

  /** The next attempt starts with the memory of an uninterrupted run. */
  predicate RestoresRight(setup: Setup, rows: Rows) {
    RestoredFrom(rows, 0) <= 4 && RestoredMemory(rows) == MemoryAt(setup, RestoredFrom(rows, 0))
  }

  /** The stage's document is stored, by either worker. */
  predicate DocumentStored(k: nat, b: nat, c: nat) {
    k >= 2 || c <= 1 || b >= 2
  }

  /** Column by column. */
  lemma LateColumns(setup: Setup, rows: Rows, k: nat, c: nat)
    requires Sensible(setup) && k < 4 && c < 3
    requires forall p :: p in Produced(setup, k, MemoryAt(setup, k)) ==> p in MemoryAt(setup, k + 1).tree.files
    ensures var late, m := LateCommits(setup, rows, k, c), MemoryAt(setup, k + 1);
      && late.files == (if c == 0 then
           rows.files + Batch(Produced(setup, k, MemoryAt(setup, k)), m.tree.files, STAGES[k]) else rows.files)
      && late.requirements == (if k == 0 && c <= 1 then m.requirements else rows.requirements)
      && late.architecture == (if k == 1 && c <= 1 then m.architecture else rows.architecture)
      && late.status == rows.status[k := Succeeded]
  {
    StageNumbers(k);
  }

  lemma StageNumbers(k: nat)
    requires k < 4
    ensures IndexOf(STAGES[k]) == k && (STAGES[k].Analyze? <==> k == 0) && (STAGES[k].Architect? <==> k == 1)
  {
  }

  lemma LateFiles(setup: Setup, rows: Rows, k: nat, b: nat, c: nat)
    requires Sensible(setup) && k < 4 && b <= 2 && c < 3 && Partial(setup, rows, k, b)
    ensures LateCommits(setup, rows, k, c).files == Checkpoint(setup, if c == 0 || b >= 1 then k + 1 else k).files
  {
    FirstCommit(setup, k);
    LateColumns(setup, rows, k, c);
    BatchTwice(Checkpoint(setup, k).files,
      Batch(Produced(setup, k, MemoryAt(setup, k)), MemoryAt(setup, k + 1).tree.files, STAGES[k]));
  }

  lemma BatchTwice(base: map<string, FileRow>, batch: map<string, FileRow>)
    ensures (base + batch) + batch == base + batch
  {
  }

  lemma LateDocuments(setup: Setup, rows: Rows, k: nat, b: nat, c: nat)
    requires Sensible(setup) && k < 4 && b <= 2 && c < 3 && Partial(setup, rows, k, b)
    ensures var m := MemoryAt(setup, if DocumentStored(k, b, c) then k + 1 else k);
      var late := LateCommits(setup, rows, k, c);
      late.requirements == m.requirements && late.architecture == m.architecture
  {
    FirstCommit(setup, k);
    LateColumns(setup, rows, k, c);
    NextDocuments(setup, k);
  }

  lemma NextDocuments(setup: Setup, k: nat)
    requires k < 4
    ensures k != 0 ==> MemoryAt(setup, k + 1).requirements == MemoryAt(setup, k).requirements
    ensures k != 1 ==> MemoryAt(setup, k + 1).architecture == MemoryAt(setup, k).architecture
  {
  }

  lemma LateStatus(setup: Setup, rows: Rows, k: nat, b: nat, c: nat)
    requires Sensible(setup) && k < 4 && b <= 2 && c < 3 && Partial(setup, rows, k, b)
    ensures DoneUpTo(LateCommits(setup, rows, k, c).status, k + 1)
  {
    FirstCommit(setup, k);
    LateColumns(setup, rows, k, c);
  }

  /** Everything of the stage is there, whoever stored it. */
  lemma AllStored(setup: Setup, rows: Rows, k: nat, b: nat, c: nat)
    requires Sensible(setup) && k < 4 && b <= 2 && c < 3 && Partial(setup, rows, k, b)
    requires DocumentStored(k, b, c) && (c == 0 || b >= 1)
    ensures RestoresRight(setup, LateCommits(setup, rows, k, c))
  {
    var late := LateCommits(setup, rows, k, c);
    LateFiles(setup, rows, k, b, c);
    LateDocuments(setup, rows, k, b, c);
    LateStatus(setup, rows, k, b, c);
    assert Partial(setup, late, k + 1, 0);
    RestoreIsExact(setup, late, k + 1);
  }

  lemma {:induction false} RestoredTo(rows: Rows, n: nat, i: nat)
    requires i <= n < 5 && (forall j :: i <= j < n ==> Restorable(rows, j)) && !Restorable(rows, n)
    ensures RestoredFrom(rows, i) == n
    decreases n - i
  {
    if i < n { RestoredTo(rows, n, i + 1); }
  }

  /** A mark without its document is not believed: the stage runs again. */
  lemma NoDocument(setup: Setup, rows: Rows, k: nat, b: nat, c: nat)
    requires Sensible(setup) && k < 4 && b <= 2 && c < 3 && Partial(setup, rows, k, b)
    requires !DocumentStored(k, b, c)
    ensures RestoresRight(setup, LateCommits(setup, rows, k, c))
  {
    var late := LateCommits(setup, rows, k, c);
    LateDocuments(setup, rows, k, b, c);
    LateStatus(setup, rows, k, b, c);
    RestoredTo(late, k, 0);
    KeepsEarlierRows(setup, rows, k, b >= 1);
    FirstStagesAreDone(rows, k);
    OwnershipPartition(setup, k);
    TreeOfRows(setup.rules, MemoryAt(setup, k).tree);
    assert late.files == rows.files;
    assert WithoutFiles(late, FirstStages(k)).files == WithoutFiles(rows, FirstStages(k)).files;
  }

  lemma OnlyFirstStages(setup: Setup, rows: Rows, k: nat)
    requires Sensible(setup) && k < 4 && rows.files == Checkpoint(setup, k).files
    ensures WithoutFiles(rows, FirstStages(k + 1)).files == rows.files
  {
    OwnershipPartition(setup, k);
    var t := MemoryAt(setup, k).tree;
    forall p | p in rows.files
      ensures rows.files[p].stage in FirstStages(k + 1)
    {
      assert p in t.files.Keys && p in t.origin.Keys;
      assert rows.files[p].stage == t.origin[p] == STAGES[IndexOf(t.origin[p])];
    }
  }

  /** A mark without its files is believed: the next attempt goes on without them. */
  lemma NoFiles(setup: Setup, rows: Rows, k: nat, b: nat, c: nat)
    requires Sensible(setup) && k < 4 && b <= 2 && c < 3 && Partial(setup, rows, k, b)
    requires DocumentStored(k, b, c) && c >= 1 && b == 0
    ensures RestoredFrom(LateCommits(setup, rows, k, c), 0) == k + 1
    ensures RestoredMemory(LateCommits(setup, rows, k, c)).tree == MemoryAt(setup, k).tree
  {
    var late := LateCommits(setup, rows, k, c);
    LateFiles(setup, rows, k, b, c);
    LateDocuments(setup, rows, k, b, c);
    LateStatus(setup, rows, k, b, c);
    RestoredTo(late, k + 1, 0);
    OnlyFirstStages(setup, late, k);
    OwnershipPartition(setup, k);
    TreeOfRows(setup.rules, MemoryAt(setup, k).tree);
  }

  lemma AddsNothing(before: Tree, after: Tree, paths: seq<string>, stage: Stage)
    requires AddsOnly(before, after, paths, stage)
    ensures after == before <==> paths == []
  {
    if paths == [] {
      assert after.files == before.files && after.origin == before.origin;
    } else {
      assert paths[0] in paths;
    }
  }

  lemma NothingNew(setup: Setup, k: nat)
    requires Sensible(setup) && k < 4
    ensures MemoryAt(setup, k + 1).tree == MemoryAt(setup, k).tree <==> Produced(setup, k, MemoryAt(setup, k)) == []
  {
    var m := MemoryAt(setup, k);
    StagesAreDisjoint(setup, k);
    assert MemoryAt(setup, k + 1).tree == NextTree(setup, k, m);
    AddsNothing(m.tree, NextTree(setup, k, m), Produced(setup, k, m), STAGES[k]);
  }

  /** Stage `k` is being stored by two workers: the job's present one has made `b` of its commits, one that
      lost its claim had made `c` and now makes the rest. The next attempt is right exactly if the late
      one makes all its commits, or the files are stored by the present one, or there are none, or the
      architecture is missing and the mark is not believed. */
  lemma LateCommitsKeepCheckpoint(setup: Setup, rows: Rows, k: nat, b: nat, c: nat)
    requires Sensible(setup) && k < 4 && b <= 2 && c < 3 && Partial(setup, rows, k, b)
    ensures RestoresRight(setup, LateCommits(setup, rows, k, c)) <==>
      c == 0 || b >= 1 || (k == 1 && c == 2) || Produced(setup, k, MemoryAt(setup, k)) == []
  {
    if !DocumentStored(k, b, c) {
      NoDocument(setup, rows, k, b, c);
      if k == 0 { assert Sanitized(setup.rules, setup.limits, Output(setup.agents, 0, MemoryAt(setup, 0))) == []; }
    } else if c == 0 || b >= 1 {
      AllStored(setup, rows, k, b, c);
    } else {
      NoFiles(setup, rows, k, b, c);
      NothingNew(setup, k);
      if Produced(setup, k, MemoryAt(setup, k)) == [] { NoFilesNeeded(setup, rows, k, b, c); }
    }
  }

  lemma NoFilesNeeded(setup: Setup, rows: Rows, k: nat, b: nat, c: nat)
    requires Sensible(setup) && k < 4 && b <= 2 && c < 3 && Partial(setup, rows, k, b)
    requires DocumentStored(k, b, c) && c >= 1 && b == 0 && Produced(setup, k, MemoryAt(setup, k)) == []
    ensures RestoresRight(setup, LateCommits(setup, rows, k, c))
  {
    NoFiles(setup, rows, k, b, c);
    NothingNew(setup, k);
    LateDocuments(setup, rows, k, b, c);
  }

  /** From every run: a worker was requeued away from between its commits, having made `c` of them, and
      makes the rest before the next attempt. That attempt starts as in the uninterrupted run exactly if
      none was made before, or the stage has no files, or only the architecture's mark was left. */
  lemma LateAfterRequeue(setup: Setup, steps: seq<Step>, states: seq<World>, i: nat)
    requires Sensible(setup) && IsRun(setup, steps, states) && i < |steps| && steps[i].Requeue?
    requires states[i].phase.Persisting? && states[i].phase.commits <= 2 && states[i].phase.stage < 4
    ensures states[i + 1].phase.Waiting?
    ensures var k, c := states[i].phase.stage, states[i].phase.commits;
      var next := Next(setup, World(LateCommits(setup, states[i + 1].rows, k, c), Waiting), Step.Resume);
      next.phase.stage <= 4 && next.phase.memory == MemoryAt(setup, next.phase.stage) <==>
        c == 0 || (k == 1 && c == 2) || Produced(setup, k, MemoryAt(setup, k)) == []
  {
    var k, c := states[i].phase.stage, states[i].phase.commits;
    RequeueLeavesACheckpoint(setup, steps, states, i);
    assert Partial(setup, states[i + 1].rows, k, 0);
    LateCommitsKeepCheckpoint(setup, states[i + 1].rows, k, 0, c);
  }

  // ------------------------------------------------------------------ stages stored already

  lemma {:induction false} TreesGrow(setup: Setup, k: nat, j: nat)
    requires Sensible(setup) && k <= j <= 4
    ensures var a, b := MemoryAt(setup, k), MemoryAt(setup, j);
      && (forall p :: p in a.tree.files ==> p in b.tree.files && b.tree.files[p] == a.tree.files[p])
      && (forall p :: p in a.tree.origin ==> p in b.tree.origin && b.tree.origin[p] == a.tree.origin[p])
      && (k >= 1 ==> b.requirements == a.requirements) && (k >= 2 ==> b.architecture == a.architecture)
    decreases j
  {
    if k < j {
      TreesGrow(setup, k, j - 1);
      StagesAreDisjoint(setup, j - 1);
    }
  }

  lemma SameFilesAgain(setup: Setup, files: map<string, FileRow>, n: nat, k: nat)
    requires Sensible(setup) && k < n <= 4 && files == Checkpoint(setup, n).files
    requires forall p :: p in Produced(setup, k, MemoryAt(setup, k)) ==> p in MemoryAt(setup, k + 1).tree.files
    ensures var m, paths := MemoryAt(setup, k + 1), Produced(setup, k, MemoryAt(setup, k));
      files + Batch(paths, m.tree.files, STAGES[k]) == files
  {
    var m, paths := MemoryAt(setup, k + 1), Produced(setup, k, MemoryAt(setup, k));
    forall p | p in paths
      ensures p in files && files[p] == RowOf(m.tree.files[p], STAGES[k])
    {
      StoredRow(setup, n, k, p);
    }
  }

  lemma StoredRow(setup: Setup, n: nat, k: nat, p: string)
    requires Sensible(setup) && k < n <= 4 && p in Produced(setup, k, MemoryAt(setup, k))
    ensures var m := MemoryAt(setup, k + 1); var files := Checkpoint(setup, n).files;
      p in m.tree.files && p in files && files[p] == RowOf(m.tree.files[p], STAGES[k])
  {
    StagesAreDisjoint(setup, k);
    TreesGrow(setup, k + 1, n);
    OwnershipPartition(setup, n);
    assert MemoryAt(setup, k + 1).tree == NextTree(setup, k, MemoryAt(setup, k));
    assert p in MemoryAt(setup, n).tree.files.Keys;
  }

  /** Storing a stage again that the present worker has stored changes nothing. */
  lemma StoredAgain(setup: Setup, rows: Rows, j: nat, b: nat, k: nat, c: nat)
    requires Sensible(setup) && j <= 4 && b <= 2 && (b > 0 ==> j < 4) && Partial(setup, rows, j, b)
    requires k < j && c < 3
    ensures LateCommits(setup, rows, k, c) == rows
  {
    FirstCommit(setup, k);
    LateColumns(setup, rows, k, c);
    SameFilesAgain(setup, rows.files, if b >= 1 then j + 1 else j, k);
    TreesGrow(setup, k + 1, if b >= 2 then j + 1 else j);
    assert rows.status[k := Succeeded] == rows.status;
  }
}
