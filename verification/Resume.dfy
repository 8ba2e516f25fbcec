/** Interrupted and requeued runs against one uninterrupted run, for the four stages before the review.
    Models the attempts of src/autoswe/pipeline/orchestrator.py over the rows of one job. */
module Resume {
  import opened Options
  import opened Paths
  import opened Ownership
  import opened Pipeline
  import opened Stages
  import opened Checkpoints

  // ------------------------------------------------------------------ checkpoints

  function RowsOf(t: Tree): map<string, FileRow>
    requires t.files.Keys == t.origin.Keys
  {
    map p | p in t.files.Keys :: RowOf(t.files[p], t.origin[p])
  }

  predicate DoneUpTo(status: Statuses, k: nat) {
    forall i :: 0 <= i < 5 ==> (status[i].Succeeded? <==> i < k)
  }

  function Marked(k: nat): Statuses {
    seq(5, i => if i < k then Succeeded else Pending)
  }

  /** The rows of a job whose first `k` stages are stored and whose other stages are pending. */
  function Checkpoint(setup: Setup, k: nat): Rows
    requires k <= 4 && Sensible(setup)
  {
    OwnershipPartition(setup, k);
    var m := MemoryAt(setup, k);
    Rows(RowsOf(m.tree), Marked(k), m.requirements, m.architecture)
  }

  /** Stage `j` has run and `c` of its three commits are through; its own mark and those of later
      stages may be anything but succeeded. */
  ghost predicate Partial(setup: Setup, rows: Rows, j: nat, c: nat)
    requires j <= 4 && Sensible(setup) && (c > 0 ==> j < 4)
  {
    && rows.files == Checkpoint(setup, if c >= 1 then j + 1 else j).files
    && rows.requirements == MemoryAt(setup, if c >= 2 then j + 1 else j).requirements
    && rows.architecture == MemoryAt(setup, if c >= 2 then j + 1 else j).architecture
    && DoneUpTo(rows.status, j)
  }

  // ------------------------------------------------------------------ each commit

  /** Storing a stage's files on top of the earlier ones gives exactly the files in memory. */
  lemma FirstCommit(setup: Setup, k: nat)
    requires Sensible(setup) && k < 4
    ensures forall p :: p in Produced(setup, k, MemoryAt(setup, k)) ==> p in MemoryAt(setup, k + 1).tree.files
    ensures Checkpoint(setup, k).files
      + Batch(Produced(setup, k, MemoryAt(setup, k)), MemoryAt(setup, k + 1).tree.files, STAGES[k])
      == Checkpoint(setup, k + 1).files
  {
    StagesAreDisjoint(setup, k);
    OwnershipPartition(setup, k + 1);
    var before, after := MemoryAt(setup, k).tree, MemoryAt(setup, k + 1).tree;
    var paths := Produced(setup, k, MemoryAt(setup, k));
    assert after == NextTree(setup, k, MemoryAt(setup, k));
    RowsAdd(before, after, paths, STAGES[k]);
  }

  lemma RowsAdd(before: Tree, after: Tree, paths: seq<string>, stage: Stage)
    requires AddsOnly(before, after, paths, stage)
    requires before.files.Keys == before.origin.Keys && after.files.Keys == after.origin.Keys
    ensures RowsOf(before) + Batch(paths, after.files, stage) == RowsOf(after)
  {
    forall p | p in before.files ensures p in after.files && RowsOf(after)[p] == RowsOf(before)[p] {
      assert p in before.files.Keys && p in before.origin.Keys;
    }
  }

  /** The rows of the first `j` stages are exactly the rows `Requeued` keeps. */
  lemma KeepsEarlierRows(setup: Setup, rows: Rows, j: nat, more: bool)
    requires Sensible(setup) && j <= 4 && (more ==> j < 4) && DoneUpTo(rows.status, j)
    requires rows.files == Checkpoint(setup, if more then j + 1 else j).files
    ensures WithoutFiles(rows, DoneStages(rows)).files == Checkpoint(setup, j).files
  {
    DoneStagesAre(rows);
    OwnershipPartition(setup, j);
    var m := MemoryAt(setup, j);
    if more {
      StagesAreDisjoint(setup, j);
      OwnershipPartition(setup, j + 1);
      KeepsRowsOf(rows, m.tree, MemoryAt(setup, j + 1).tree, Produced(setup, j, m), j);
    } else {
      KeepsRowsOf(rows, m.tree, m.tree, [], j);
    }
  }

  lemma KeepsRowsOf(rows: Rows, before: Tree, after: Tree, paths: seq<string>, j: nat)
    requires j <= 4 && AddsOnly(before, after, paths, STAGES[j]) && FromStages(before, j)
    requires before.files.Keys == before.origin.Keys && after.files.Keys == after.origin.Keys
    requires rows.files == RowsOf(after) && DoneUpTo(rows.status, j)
    requires forall s :: s in DoneStages(rows) <==> Done(rows, s)
    ensures WithoutFiles(rows, DoneStages(rows)).files == RowsOf(before)
  {
    RowsAdd(before, after, paths, STAGES[j]);
    var kept := WithoutFiles(rows, DoneStages(rows)).files;
    assert IndexOf(STAGES[j]) == j;
    forall p ensures p in kept <==> p in RowsOf(before) {
      if p in before.files {
        assert p in before.origin.Keys;
        assert Done(rows, before.origin[p]);
      } else if p in paths {
        assert rows.files[p].stage == STAGES[j] && !Done(rows, STAGES[j]);
      }
    }
  }

  // ------------------------------------------------------------------ crash safety

  /** Other stages' marks, changed in any way that does not call a stage succeeded or take that back. */
  ghost predicate SameSuccesses(a: Statuses, b: Statuses) {
    forall i :: 0 <= i < 5 ==> (a[i].Succeeded? <==> b[i].Succeeded?)
  }

  /** Wherever between its commits a stage is interrupted, requeueing leaves exactly the checkpoint of
      the stages before it. */
  lemma CrashSafety(setup: Setup, rows: Rows, j: nat, c: nat, status: Statuses)
    requires Sensible(setup) && j <= 4 && c <= 2 && (c > 0 ==> j < 4)
    requires Partial(setup, rows, j, c) && SameSuccesses(rows.status, status)
    ensures Requeued(rows.(status := status)) == Checkpoint(setup, j)
  {
    var marked := rows.(status := status);
    KeepsEarlierRows(setup, marked, j, c >= 1);
    assert Reset(status) == Marked(j);
    assert IndexOf(Analyze) == 0 && IndexOf(Architect) == 1;
  }

  lemma {:induction false} RestoredUpTo(setup: Setup, rows: Rows, k: nat, i: nat)
    requires Sensible(setup) && i <= k <= 4 && Partial(setup, rows, k, 0)
    ensures RestoredFrom(rows, i) == k
    decreases k - i
  {
    if i < k { RestoredUpTo(setup, rows, k, i + 1); }
  }

  /** Restoring a checkpoint brings back exactly the memory of an uninterrupted run, and changes no row. */
  lemma RestoreIsExact(setup: Setup, rows: Rows, k: nat)
    requires Sensible(setup) && k <= 4 && Partial(setup, rows, k, 0)
    ensures RestoredFrom(rows, 0) == k && RestoredMemory(rows) == MemoryAt(setup, k) && AfterRestore(rows) == rows
  {
    RestoredUpTo(setup, rows, k, 0);
    OwnershipPartition(setup, k);
    KeepsEarlierRows(setup, rows, k, false);
    FirstStagesAreDone(rows, k);
    var t := MemoryAt(setup, k).tree;
    assert WithoutFiles(rows, FirstStages(k)).files == RowsOf(t);
    TreeOfRows(setup.rules, t);
  }

  lemma FirstStagesAreDone(rows: Rows, k: nat)
    requires k <= 4 && DoneUpTo(rows.status, k)
    ensures FirstStages(k) == DoneStages(rows)
  {
  }

  lemma TreeOfRows(rules: Rules, t: Tree)
    requires Owned(rules, t)
    ensures TreeOf(RowsOf(t)) == t
  {
    assert TreeOf(RowsOf(t)).files == t.files;
    assert TreeOf(RowsOf(t)).origin == t.origin;
  }

  // ------------------------------------------------------------------ every run of attempts

  /** Where the job is: waiting, about to start a stage with this memory, or between the commits of
      the stage that produced this memory. */
  datatype Phase =
    | Waiting
    | Starting(stage: nat, memory: Memory)
    | Persisting(stage: nat, memory: Memory, paths: seq<string>, commits: nat)

  datatype World = World(rows: Rows, phase: Phase)

  datatype Step =
    | Resume
    | Execute
    | Commit
    | Mark(status: Statuses)
    | Requeue

  predicate Possible(w: World, step: Step) {
    match step
    case Resume => w.phase.Waiting?
    case Execute => w.phase.Starting? && CanRun(w.phase.stage, w.phase.memory)
    case Commit =>
      && w.phase.Persisting? && w.phase.stage < 4 && w.phase.commits < 3
      && forall p :: p in w.phase.paths ==> p in w.phase.memory.tree.files
    case Mark(status) => forall i :: 0 <= i < 5 ==> (status[i].Succeeded? <==> w.rows.status[i].Succeeded?)
    case Requeue => !w.phase.Waiting?
  }

  function AfterCommit(rows: Rows, stage: Stage, m: Memory, paths: seq<string>, commits: nat): Rows
    requires forall p :: p in paths ==> p in m.tree.files
  {
    if commits == 0 then WithFiles(rows, paths, m.tree.files, stage)
    else if commits == 1 then WithDocuments(rows, m, stage)
    else WithStatus(rows, stage, Succeeded)
  }

  /** `Mark` stands for every other change of stage marks: running, failed, skipped. `Requeue` ends an
      attempt: a shutdown, a scheduled retry, or a failure that is retried by hand later. */
  function Next(setup: Setup, w: World, step: Step): World
    requires Possible(w, step)
  {
    match step
    case Resume => World(AfterRestore(w.rows), Starting(RestoredFrom(w.rows, 0), RestoredMemory(w.rows)))
    case Execute =>
      var k, m := w.phase.stage, w.phase.memory;
      w.(phase := Persisting(k, AfterStage(setup, k, m), Produced(setup, k, m), 0))
    case Commit =>
      var rows := AfterCommit(w.rows, STAGES[w.phase.stage], w.phase.memory, w.phase.paths, w.phase.commits);
      World(rows, if w.phase.commits == 2 then Starting(w.phase.stage + 1, w.phase.memory)
        else w.phase.(commits := w.phase.commits + 1))
    case Mark(status) => w.(rows := w.rows.(status := status))
    case Requeue => World(Requeued(w.rows), Waiting)
  }

  const SUBMITTED := World(Rows(map[], ALL_PENDING, None, None), Waiting)

  ghost predicate IsRun(setup: Setup, steps: seq<Step>, states: seq<World>) {
    && |states| == |steps| + 1 && states[0] == SUBMITTED
    && forall i :: 0 <= i < |steps| ==>
        Possible(states[i], steps[i]) && states[i + 1] == Next(setup, states[i], steps[i])
  }

  /** How many stages are stored. */
  function Stored(w: World): nat {
    match w.phase
    case Waiting => RestoredFrom(w.rows, 0)
    case Starting(k, _) => k
    case Persisting(k, _, _, _) => k
  }

  ghost predicate Inv(setup: Setup, w: World)
    requires Sensible(setup)
  {
    match w.phase
    case Waiting => Stored(w) <= 4 && Partial(setup, w.rows, Stored(w), 0)
    case Starting(k, m) => k <= 4 && m == MemoryAt(setup, k) && Partial(setup, w.rows, k, 0)
    case Persisting(k, m, paths, c) =>
      && k < 4 && c <= 2 && m == MemoryAt(setup, k + 1) && paths == Produced(setup, k, MemoryAt(setup, k))
      && Partial(setup, w.rows, k, c)
  }

  lemma CommitKeepsInv(setup: Setup, w: World)
    requires Sensible(setup) && Inv(setup, w) && Possible(w, Commit)
    ensures Inv(setup, Next(setup, w, Commit))
  {
    var k, c := w.phase.stage, w.phase.commits;
    if c == 0 {
      FirstCommit(setup, k);
    } else if c == 1 {
      assert STAGES[k].Analyze? <==> k == 0;
      assert STAGES[k].Architect? <==> k == 1;
    } else {
      assert IndexOf(STAGES[k]) == k;
    }
  }

  lemma RequeueKeepsInv(setup: Setup, w: World)
    requires Sensible(setup) && Inv(setup, w) && Possible(w, Requeue)
    ensures var w' := Next(setup, w, Requeue);
      Inv(setup, w') && Stored(w') == Stored(w) && w'.rows == Checkpoint(setup, Stored(w))
  {
    var k := Stored(w);
    CrashSafety(setup, w.rows, k, if w.phase.Persisting? then w.phase.commits else 0, w.rows.status);
    assert Partial(setup, Checkpoint(setup, k), k, 0);
    RestoredUpTo(setup, Checkpoint(setup, k), k, 0);
  }

  lemma MarkKeepsInv(setup: Setup, w: World, status: Statuses)
    requires Sensible(setup) && Inv(setup, w) && Possible(w, Mark(status))
    ensures var w' := Next(setup, w, Mark(status));
      Inv(setup, w') && Stored(w') == Stored(w) && w'.rows.status == status
  {
    if w.phase.Waiting? {
      var k := Stored(w);
      assert Partial(setup, w.rows.(status := status), k, 0);
      RestoredUpTo(setup, w.rows.(status := status), k, 0);
    }
  }

  lemma StepKeepsInv(setup: Setup, w: World, step: Step)
    requires Sensible(setup) && Inv(setup, w) && Possible(w, step)
    ensures Inv(setup, Next(setup, w, step)) && Stored(Next(setup, w, step)) >= Stored(w)
  {
    match step
    case Resume => RestoreIsExact(setup, w.rows, Stored(w));
    case Execute =>
    case Commit => CommitKeepsInv(setup, w);
    case Mark(status) => MarkKeepsInv(setup, w, status);
    case Requeue => RequeueKeepsInv(setup, w);
  }

  lemma {:induction false} EveryRunKeepsInv(setup: Setup, steps: seq<Step>, states: seq<World>, i: nat)
    requires Sensible(setup) && IsRun(setup, steps, states) && i <= |steps|
    ensures Inv(setup, states[i])
    decreases i
  {
    if i == 0 {
      assert Checkpoint(setup, 0).files == map[];
    } else {
      EveryRunKeepsInv(setup, steps, states, i - 1);
      StepKeepsInv(setup, states[i - 1], steps[i - 1]);
    }
  }

  /** Resume equivalence: however often the job was interrupted and requeued, a stage that starts finds
      the memory it would have found in one uninterrupted run. */
  lemma ResumeEquivalence(setup: Setup, steps: seq<Step>, states: seq<World>, i: nat)
    requires Sensible(setup) && IsRun(setup, steps, states) && i <= |steps| && states[i].phase.Starting?
    ensures states[i].phase.stage <= 4 && states[i].phase.memory == MemoryAt(setup, states[i].phase.stage)
  {
    EveryRunKeepsInv(setup, steps, states, i);
  }

  /** Nothing of an unfinished stage survives a requeue, and nothing of a finished one is lost. */
  lemma RequeueLeavesACheckpoint(setup: Setup, steps: seq<Step>, states: seq<World>, i: nat)
    requires Sensible(setup) && IsRun(setup, steps, states) && i < |steps| && steps[i].Requeue?
    ensures Stored(states[i]) <= 4 && states[i + 1].rows == Checkpoint(setup, Stored(states[i]))
  {
    EveryRunKeepsInv(setup, steps, states, i);
    RequeueKeepsInv(setup, states[i]);
  }

  /** An attempt never gets stuck: the next agent finds what it needs, the next commit its files. */
  lemma AttemptsGoOn(setup: Setup, steps: seq<Step>, states: seq<World>, i: nat)
    requires Sensible(setup) && IsRun(setup, steps, states) && i <= |steps|
    ensures states[i].phase.Starting? && states[i].phase.stage < 4 ==> Possible(states[i], Execute)
    ensures states[i].phase.Persisting? ==> Possible(states[i], Commit)
  {
    EveryRunKeepsInv(setup, steps, states, i);
    if states[i].phase.Persisting? {
      FirstCommit(setup, states[i].phase.stage);
    }
  }

  lemma StoredGrows(setup: Setup, steps: seq<Step>, states: seq<World>, i: nat)
    requires Sensible(setup) && IsRun(setup, steps, states) && i < |steps|
    ensures Stored(states[i]) <= Stored(states[i + 1])
  {
    EveryRunKeepsInv(setup, steps, states, i);
    StepKeepsInv(setup, states[i], steps[i]);
  }

  /** A stage that was stored is never run again, so it is never paid for twice. */
  lemma {:induction false} FinishedStagesStayFinished(setup: Setup, steps: seq<Step>, states: seq<World>, i: nat,
                                                      j: nat)
    requires Sensible(setup) && IsRun(setup, steps, states) && i <= j <= |steps|
    ensures Stored(states[i]) <= Stored(states[j])
    ensures j < |steps| && steps[j].Execute? ==> states[j].phase.stage >= Stored(states[i])
    decreases j - i
  {
    if i < j {
      FinishedStagesStayFinished(setup, steps, states, i, j - 1);
      StoredGrows(setup, steps, states, j - 1);
    }
  }
}
