/** What the four agents before the review leave in memory, stage by stage, in one uninterrupted run.
    Models `RequirementsAnalyst`, `Architect`, `CodeGenerator` and `DevOpsEngineer` of
    src/autoswe/pipeline/agents.py, for models that answer equal prompts equally. */
module Stages {
  import opened Options
  import opened Paths
  import opened Ownership
  import opened Pipeline

  const STAGES := [Analyze, Architect, Implement, Devops, Review]

  function IndexOf(stage: Stage): (i: nat)
    ensures i < 5 && STAGES[i] == stage
  {
    match stage
    case Analyze => 0
    case Architect => 1
    case Implement => 2
    case Devops => 3
    case Review => 4
  }

  /** Each agent as a function of what its prompt shows the model. */
  datatype Agents = Agents(
    analyze: () -> Document,
    design: Document -> Document,
    overview: (Document, Document) -> string,
    pretty: Document -> string,
    code: (Document, Document) -> seq<File>,
    deliver: (Document, Document, set<string>) -> seq<File>)

  datatype Memory = Memory(requirements: Option<Document>, architecture: Option<Document>, tree: Tree)

  /** Everything a run depends on and does not change. */
  datatype Setup = Setup(agents: Agents, rules: Rules, limits: Limits)

  /** Platform file names are already normalised, and a normalised path stays as it is. */
  ghost predicate Sensible(setup: Setup) {
    && Stable(setup.rules)
    && forall i :: 0 <= i < |PLATFORM_OWNED| ==> setup.rules.normalize(PLATFORM_OWNED[i]) == Some(PLATFORM_OWNED[i])
  }

  /** What stage `k` needs to find in memory. */
  predicate CanRun(k: nat, m: Memory) {
    && k < 4
    && (k >= 1 ==> m.requirements.Some?)
    && (k >= 2 ==> m.architecture.Some?)
  }

  function Docs(agents: Agents, requirements: Document, architecture: Document): seq<File> {
    [File(PLATFORM_OWNED[0], agents.overview(requirements, architecture),
      "Architecture overview rendered by the platform"),
     File(PLATFORM_OWNED[1], agents.pretty(architecture), "Machine-readable architecture spec"),
     File(PLATFORM_OWNED[2], agents.pretty(requirements), "Machine-readable requirements")]
  }

  /** The files stage `k` asks to merge. */
  function Output(agents: Agents, k: nat, m: Memory): seq<File>
    requires CanRun(k, m)
  {
    if k == 0 then []
    else if k == 1 then Docs(agents, m.requirements.value, agents.design(m.requirements.value))
    else if k == 2 then agents.code(m.requirements.value, m.architecture.value)
    else agents.deliver(m.requirements.value, m.architecture.value, m.tree.files.Keys)
  }

  function Keep(rules: Rules, k: nat): string -> bool {
    (path: string) => k <= 1 || (k == 2 && !IsDevopsPath(rules, path)) || (k >= 3 && IsDevopsPath(rules, path))
  }

  /** The paths stage `k` reports, which are the ones it is persisted with. */
  function Produced(setup: Setup, k: nat, m: Memory): seq<string>
    requires CanRun(k, m)
  {
    Accepted(setup.rules, setup.limits, STAGES[k], Keep(setup.rules, k), Output(setup.agents, k, m))
  }

  function NextTree(setup: Setup, k: nat, m: Memory): Tree
    requires CanRun(k, m)
  {
    Merged(setup.rules, setup.limits, m.tree, STAGES[k], Keep(setup.rules, k), Output(setup.agents, k, m))
  }

  function AfterStage(setup: Setup, k: nat, m: Memory): Memory
    requires CanRun(k, m)
  {
    Memory(
      if k == 0 then Some(setup.agents.analyze()) else m.requirements,
      if k == 1 then Some(setup.agents.design(m.requirements.value)) else m.architecture,
      NextTree(setup, k, m))
  }

  /** Memory after the first `k` stages of one uninterrupted run. */
  function MemoryAt(setup: Setup, k: nat): (m: Memory)
    requires k <= 4
    ensures m.requirements.Some? <==> k >= 1
    ensures m.architecture.Some? <==> k >= 2
  {
    if k == 0 then Memory(None, None, Tree(map[], map[])) else AfterStage(setup, k - 1, MemoryAt(setup, k - 1))
  }

  // ------------------------------------------------------------------ ownership

  /** Whatever the model answers, a stage merges only paths that are its own. */
  lemma StageKeepsToItsPaths(setup: Setup, k: nat, m: Memory, f: File)
    requires Sensible(setup) && CanRun(k, m) && 1 <= k
    requires f in Sanitized(setup.rules, setup.limits, Output(setup.agents, k, m))
    requires Accepts(setup.rules, STAGES[k], Keep(setup.rules, k), f.path)
    ensures OwnerOf(setup.rules, f.path) == STAGES[k]
  {
    if k == 1 {
      var docs := Output(setup.agents, k, m);
      SanitizedComesFromInput(setup.rules, setup.limits, docs);
      var g :| g in docs && setup.rules.normalize(g.path) == Some(f.path) && f == g.(path := f.path);
      var i :| 0 <= i < 3 && docs[i] == g;
      assert setup.rules.normalize(PLATFORM_OWNED[i]) == Some(PLATFORM_OWNED[i]);
      assert f.path == PLATFORM_OWNED[i];
    }
  }

  /** Of what its agent answers, a stage takes exactly the files that are its own: it reports each of them
      and stores it as it is, and drops every other one. */
  lemma StageTakesItsFiles(setup: Setup, k: nat, m: Memory, f: File)
    requires Sensible(setup) && CanRun(k, m) && 1 <= k
    requires f in Sanitized(setup.rules, setup.limits, Output(setup.agents, k, m))
    ensures f.path in Produced(setup, k, m) <==> OwnerOf(setup.rules, f.path) == STAGES[k]
    ensures OwnerOf(setup.rules, f.path) == STAGES[k] ==>
      var t' := NextTree(setup, k, m);
      f.path in t'.files && t'.files[f.path] == f && f.path in t'.origin && t'.origin[f.path] == STAGES[k]
  {
    var output := Output(setup.agents, k, m);
    SanitizedIsClean(setup.rules, setup.limits, output);
    MergeTakesAccepted(setup.rules, m.tree, STAGES[k], Keep(setup.rules, k),
      Sanitized(setup.rules, setup.limits, output), f);
    if Accepts(setup.rules, STAGES[k], Keep(setup.rules, k), f.path) { StageKeepsToItsPaths(setup, k, m, f); }
  }

  /** What each agent is shown, and where its answer goes. */
  lemma AgentsAnswers(setup: Setup, m: Memory, f: File)
    requires Sensible(setup) && m.requirements.Some? && m.architecture.Some?
    ensures AfterStage(setup, 0, m) == Memory(Some(setup.agents.analyze()), m.architecture, m.tree)
    ensures AfterStage(setup, 1, m).requirements == m.requirements
    ensures AfterStage(setup, 1, m).architecture == Some(setup.agents.design(m.requirements.value))
    ensures AfterStage(setup, 2, m).requirements == AfterStage(setup, 3, m).requirements == m.requirements
    ensures AfterStage(setup, 2, m).architecture == AfterStage(setup, 3, m).architecture == m.architecture
    ensures var code := setup.agents.code(m.requirements.value, m.architecture.value);
      f in Sanitized(setup.rules, setup.limits, code) && OwnerOf(setup.rules, f.path) == Implement ==>
        f.path in AfterStage(setup, 2, m).tree.files && AfterStage(setup, 2, m).tree.files[f.path] == f
    ensures var delivery := setup.agents.deliver(m.requirements.value, m.architecture.value, m.tree.files.Keys);
      f in Sanitized(setup.rules, setup.limits, delivery) && OwnerOf(setup.rules, f.path) == Devops ==>
        f.path in AfterStage(setup, 3, m).tree.files && AfterStage(setup, 3, m).tree.files[f.path] == f
  {
    var code := setup.agents.code(m.requirements.value, m.architecture.value);
    var delivery := setup.agents.deliver(m.requirements.value, m.architecture.value, m.tree.files.Keys);
    assert Sanitized(setup.rules, setup.limits, []) == [];
    if f in Sanitized(setup.rules, setup.limits, code) { StageTakesItsFiles(setup, 2, m, f); }
    if f in Sanitized(setup.rules, setup.limits, delivery) { StageTakesItsFiles(setup, 3, m, f); }
  }

  /** The architect's stage leaves the overview, the architecture and the requirements under the platform's
      three names, unless they are too large. */
  lemma ArchitectWritesDocuments(setup: Setup, m: Memory)
    requires Sensible(setup) && FoldsAscii(setup.rules) && m.requirements.Some?
    requires var requirements := m.requirements.value; var architecture := setup.agents.design(requirements);
      FitsThree(setup, setup.agents.overview(requirements, architecture), setup.agents.pretty(architecture),
        setup.agents.pretty(requirements))
    ensures var requirements := m.requirements.value; var architecture := setup.agents.design(requirements);
      var files := NextTree(setup, 1, m).files;
      && "ARCHITECTURE.md" in files && files["ARCHITECTURE.md"] == File("ARCHITECTURE.md",
           setup.agents.overview(requirements, architecture), "Architecture overview rendered by the platform")
      && "docs/architecture.json" in files && files["docs/architecture.json"] == File("docs/architecture.json",
           setup.agents.pretty(architecture), "Machine-readable architecture spec")
      && "docs/requirements.json" in files && files["docs/requirements.json"] == File("docs/requirements.json",
           setup.agents.pretty(requirements), "Machine-readable requirements")
  {
    var docs := Output(setup.agents, 1, m);
    PlatformKeys(setup.rules);
    DocsAreClean(setup, m);
    CleanIsTakenWhole(setup.rules, setup.limits, docs);
    forall i | 0 <= i < 3
      ensures docs[i].path in NextTree(setup, 1, m).files && NextTree(setup, 1, m).files[docs[i].path] == docs[i]
    {
      assert docs[i] in docs && docs[i].path == PLATFORM_OWNED[i];
      StageTakesItsFiles(setup, 1, m, docs[i]);
    }
  }

  predicate FitsThree(setup: Setup, a: string, b: string, c: string) {
    var bytes, limits := setup.rules.bytes, setup.limits;
    && limits.maxFiles >= 3 && bytes(a) <= limits.maxFileBytes && bytes(b) <= limits.maxFileBytes
    && bytes(c) <= limits.maxFileBytes && bytes(a) + bytes(b) + bytes(c) <= limits.maxTotalBytes
  }

  lemma DocsAreClean(setup: Setup, m: Memory)
    requires Sensible(setup) && FoldsAscii(setup.rules) && m.requirements.Some?
    requires var requirements := m.requirements.value; var architecture := setup.agents.design(requirements);
      FitsThree(setup, setup.agents.overview(requirements, architecture), setup.agents.pretty(architecture),
        setup.agents.pretty(requirements))
    ensures Clean(setup.rules, setup.limits, Output(setup.agents, 1, m))
  {
    var docs := Output(setup.agents, 1, m);
    PlatformKeys(setup.rules);
    assert docs[..2][..1] == docs[..1] && docs[..1][..0] == [];
    assert Sizes(setup.rules, docs) == Sizes(setup.rules, docs[..2]) + setup.rules.bytes(docs[2].content);
    assert Sizes(setup.rules, docs[..2]) == Sizes(setup.rules, docs[..1]) + setup.rules.bytes(docs[1].content);
    assert "architecture.md"[0] != "docs/architecture.json"[0];
    assert "architecture.md"[0] != "docs/requirements.json"[0];
    assert "docs/architecture.json"[5] != "docs/requirements.json"[5];
  }

  /** Every path is owned by a stage that has run. */
  ghost predicate FromStages(t: Tree, k: nat) {
    forall p :: p in t.origin ==> 1 <= IndexOf(t.origin[p]) < k
  }

  lemma StageKeepsOwnership(setup: Setup, k: nat, m: Memory)
    requires Sensible(setup) && CanRun(k, m) && Owned(setup.rules, m.tree)
    ensures Owned(setup.rules, NextTree(setup, k, m))
  {
    if k == 0 {
      assert Sanitized(setup.rules, setup.limits, Output(setup.agents, k, m)) == [];
    } else {
      var output := Output(setup.agents, k, m);
      forall f: File | f in Sanitized(setup.rules, setup.limits, output)
        && Accepts(setup.rules, STAGES[k], Keep(setup.rules, k), f.path)
        ensures OwnerOf(setup.rules, f.path) == STAGES[k]
      {
        StageKeepsToItsPaths(setup, k, m, f);
      }
      MergeKeepsOwnership(setup.rules, setup.limits, m.tree, STAGES[k], Keep(setup.rules, k), output);
    }
  }

  /** What stage `k` writes: new paths, its own, on top of what was there. */
  ghost predicate AddsOnly(before: Tree, after: Tree, paths: seq<string>, stage: Stage) {
    && (forall p :: p in paths ==>
        p !in before.files && p in after.files && p in after.origin && after.origin[p] == stage)
    && (forall p :: p in before.files ==> p in after.files && after.files[p] == before.files[p])
    && (forall p :: p in before.origin ==> p in after.origin && after.origin[p] == before.origin[p])
    && (forall p :: p in after.files ==> p in before.files || p in paths)
    && (forall p :: p in after.origin ==> p in before.origin || p in paths)
  }

  /** No stage overwrites a file of an earlier one, whatever the models return. */
  lemma {:induction false} StagesAreDisjoint(setup: Setup, k: nat)
    requires Sensible(setup) && k < 4
    ensures var m := MemoryAt(setup, k);
      && Owned(setup.rules, m.tree) && FromStages(m.tree, k)
      && AddsOnly(m.tree, NextTree(setup, k, m), Produced(setup, k, m), STAGES[k])
    decreases k
  {
    var m := MemoryAt(setup, k);
    if k > 0 {
      StagesAreDisjoint(setup, k - 1);
      StageKeepsOwnership(setup, k - 1, MemoryAt(setup, k - 1));
    }
    WritesNewPaths(setup, k, m);
  }

  lemma WritesNewPaths(setup: Setup, k: nat, m: Memory)
    requires Sensible(setup) && CanRun(k, m) && Owned(setup.rules, m.tree) && FromStages(m.tree, k)
    ensures AddsOnly(m.tree, NextTree(setup, k, m), Produced(setup, k, m), STAGES[k])
  {
    var output := Output(setup.agents, k, m);
    var clean := Sanitized(setup.rules, setup.limits, output);
    var after, paths := NextTree(setup, k, m), Produced(setup, k, m);
    if k == 0 {
      assert clean == [];
    } else {
      MergeChangesAccepted(setup.rules, m.tree, STAGES[k], Keep(setup.rules, k), clean);
      forall p | p in m.tree.files ensures OwnerOf(setup.rules, p) != STAGES[k] {
        assert p in m.tree.origin.Keys && m.tree.origin[p] == OwnerOf(setup.rules, p);
      }
      forall p | p in paths
        ensures p !in m.tree.files && p in after.files && p in after.origin && after.origin[p] == STAGES[k] {
        StageKeepsToItsPaths(setup, k, m, after.files[p]);
      }
    }
  }

  /** After every stage, each file comes from the one stage that owns its path. */
  lemma OwnershipPartition(setup: Setup, k: nat)
    requires Sensible(setup) && k <= 4
    ensures Owned(setup.rules, MemoryAt(setup, k).tree) && FromStages(MemoryAt(setup, k).tree, k)
  {
    if k > 0 {
      StagesAreDisjoint(setup, k - 1);
      StageKeepsOwnership(setup, k - 1, MemoryAt(setup, k - 1));
    }
  }

  // ------------------------------------------------------------------ the agents as they run

  function MemoryOf(state: PipelineState): Memory
    reads state
  {
    Memory(state.requirements, state.architecture, state.Now())
  }

  /** One agent before the review; its result's `files` are the accepted paths. None stands for the
      error raised when an earlier stage has not run. */
  method RunAgent(state: PipelineState, agents: Agents, stage: Stage) returns (paths: Option<seq<string>>)
    requires !stage.Review?
    modifies state
    ensures paths.Some? <==> CanRun(IndexOf(stage), old(MemoryOf(state)))
    ensures paths.None? ==> MemoryOf(state) == old(MemoryOf(state))
    ensures paths.Some? ==>
      var setup := Setup(agents, state.rules, state.limits);
      && MemoryOf(state) == AfterStage(setup, IndexOf(stage), old(MemoryOf(state)))
      && paths.value == Produced(setup, IndexOf(stage), old(MemoryOf(state)))
  {
    var k := IndexOf(stage);
    var m := Memory(state.requirements, state.architecture, state.Now());
    if !CanRun(k, m) {
      return None;
    }
    var output := Output(agents, k, m);
    if stage.Analyze? {
      state.requirements := Some(agents.analyze());
      assert Sanitized(state.rules, state.limits, output) == [];
      return Some([]);
    }
    if stage.Architect? {
      state.architecture := Some(agents.design(state.requirements.value));
    }
    var accepted, _ := state.Merge(output, stage, Keep(state.rules, k));
    return Some(accepted);
  }
}
