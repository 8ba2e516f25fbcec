/** Which stage owns a path, and how a stage's files are merged into the pipeline's state.
    Models `is_devops_path`, `is_platform_owned` and `PipelineState.merge` of
    src/autoswe/pipeline/agents.py. */
module Ownership {
  import opened Letters
  import opened Options
  import opened Paths

  datatype Stage = Analyze | Architect | Implement | Devops | Review

  const PLATFORM_OWNED := ["ARCHITECTURE.md", "docs/architecture.json", "docs/requirements.json"]
  const DEVOPS_PREFIXES := ["Dockerfile", ".dockerignore", ".github/", "deploy/"]

  /** NFC and case folding leave ASCII text as it is but for its letters' case. */
  ghost predicate FoldsAscii(rules: Rules) {
    forall s: string :: Ascii(s) ==> rules.key(s) == LowerAll(s)
  }

  predicate IsDevopsPath(rules: Rules, path: string) {
    exists i :: 0 <= i < |DEVOPS_PREFIXES| && rules.key(DEVOPS_PREFIXES[i]) <= rules.key(path)
  }

  predicate IsPlatformOwned(rules: Rules, path: string) {
    exists i :: 0 <= i < |PLATFORM_OWNED| && rules.key(path) == rules.key(PLATFORM_OWNED[i])
  }

  /** The one stage whose files may have this path. */
  function OwnerOf(rules: Rules, path: string): Stage {
    if IsPlatformOwned(rules, path) then Architect
    else if IsDevopsPath(rules, path) then Devops
    else Implement
  }

  lemma KeyOfAscii(rules: Rules, path: string, lower: string)
    requires FoldsAscii(rules) && |path| == |lower|
    requires forall i :: 0 <= i < |path| ==> path[i] as int < 0x80 && Lower(path[i]) == lower[i]
    ensures rules.key(path) == lower
  {
    assert Ascii(path) && LowerAll(path) == lower;
  }

  lemma PlatformKeys(rules: Rules)
    requires FoldsAscii(rules)
    ensures rules.key(PLATFORM_OWNED[0]) == "architecture.md"
    ensures rules.key(PLATFORM_OWNED[1]) == "docs/architecture.json"
    ensures rules.key(PLATFORM_OWNED[2]) == "docs/requirements.json"
  {
    KeyOfAscii(rules, "ARCHITECTURE.md", "architecture.md");
    KeyOfAscii(rules, "docs/architecture.json", "docs/architecture.json");
    KeyOfAscii(rules, "docs/requirements.json", "docs/requirements.json");
  }

  lemma DevopsKeys(rules: Rules)
    requires FoldsAscii(rules)
    ensures rules.key(DEVOPS_PREFIXES[0]) == "dockerfile" && rules.key(DEVOPS_PREFIXES[1]) == ".dockerignore"
    ensures rules.key(DEVOPS_PREFIXES[2]) == ".github/" && rules.key(DEVOPS_PREFIXES[3]) == "deploy/"
  {
    KeyOfAscii(rules, "Dockerfile", "dockerfile");
    KeyOfAscii(rules, ".dockerignore", ".dockerignore");
    KeyOfAscii(rules, ".github/", ".github/");
    KeyOfAscii(rules, "deploy/", "deploy/");
  }

  /** No path is both the platform's and a delivery file. */
  lemma OwnersAreDisjoint(rules: Rules, path: string)
    requires FoldsAscii(rules)
    ensures !(IsPlatformOwned(rules, path) && IsDevopsPath(rules, path))
  {
    PlatformKeys(rules);
    DevopsKeys(rules);
    if IsPlatformOwned(rules, path) {
      var key := rules.key(path);
      assert key[0] == 'a' || key[0] == 'd';
      assert key[0] == 'd' ==> key[1] == 'o' && key[2] == 'c' && key[3] == 's';
      assert "dockerfile"[3] == 'k' && "deploy/"[1] == 'e' && ".dockerignore"[0] == '.' && ".github/"[0] == '.';
    }
  }

  /** Capitals do not matter: the platform's are three paths, delivery files those under four beginnings, and
      every other path is the code generator's. */
  lemma OwnersByName(rules: Rules, path: string)
    requires FoldsAscii(rules)
    ensures var key := rules.key(path);
      OwnerOf(rules, path) ==
        if key in {"architecture.md", "docs/architecture.json", "docs/requirements.json"} then Architect
        else if "dockerfile" <= key || ".dockerignore" <= key || ".github/" <= key || "deploy/" <= key then Devops
        else Implement
  {
    PlatformKeys(rules);
    DevopsKeys(rules);
    var key := rules.key(path);
    if key == "architecture.md" { assert key == rules.key(PLATFORM_OWNED[0]); }
    if key == "docs/architecture.json" { assert key == rules.key(PLATFORM_OWNED[1]); }
    if key == "docs/requirements.json" { assert key == rules.key(PLATFORM_OWNED[2]); }
    if "dockerfile" <= key { assert rules.key(DEVOPS_PREFIXES[0]) <= key; }
    if ".dockerignore" <= key { assert rules.key(DEVOPS_PREFIXES[1]) <= key; }
    if ".github/" <= key { assert rules.key(DEVOPS_PREFIXES[2]) <= key; }
    if "deploy/" <= key { assert rules.key(DEVOPS_PREFIXES[3]) <= key; }
  }

  // ------------------------------------------------------------------ merging

  /** The files of a project and the stage each one came from. */
  datatype Tree = Tree(files: map<string, File>, origin: map<string, Stage>)

  /** Whether `merge` takes a sanitised file. */
  predicate Accepts(rules: Rules, stage: Stage, keep: string -> bool, path: string) {
    (!IsPlatformOwned(rules, path) || stage.Architect?) && keep(path)
  }

  function WithFile(t: Tree, stage: Stage, file: File): Tree {
    Tree(t.files[file.path := file], t.origin[file.path := stage])
  }

  /** The tree after merging sanitised files, in order. */
  function MergedClean(rules: Rules, t: Tree, stage: Stage, keep: string -> bool, clean: seq<File>): Tree {
    if clean == [] then t
    else
      var before := MergedClean(rules, t, stage, keep, clean[..|clean| - 1]);
      var file := clean[|clean| - 1];
      if Accepts(rules, stage, keep, file.path) then WithFile(before, stage, file) else before
  }

  function AcceptedPaths(rules: Rules, stage: Stage, keep: string -> bool, clean: seq<File>): seq<string> {
    if clean == [] then []
    else
      var before := AcceptedPaths(rules, stage, keep, clean[..|clean| - 1]);
      var file := clean[|clean| - 1];
      if Accepts(rules, stage, keep, file.path) then before + [file.path] else before
  }

  lemma MergeOneMore(rules: Rules, t: Tree, stage: Stage, keep: string -> bool, clean: seq<File>, i: nat)
    requires i < |clean|
    ensures MergedClean(rules, t, stage, keep, clean[..i + 1]) ==
      var before := MergedClean(rules, t, stage, keep, clean[..i]);
      if Accepts(rules, stage, keep, clean[i].path) then WithFile(before, stage, clean[i]) else before
    ensures AcceptedPaths(rules, stage, keep, clean[..i + 1]) ==
      var before := AcceptedPaths(rules, stage, keep, clean[..i]);
      if Accepts(rules, stage, keep, clean[i].path) then before + [clean[i].path] else before
    ensures DroppedPaths(rules, stage, keep, clean[..i + 1]) ==
      var before := DroppedPaths(rules, stage, keep, clean[..i]);
      if Accepts(rules, stage, keep, clean[i].path) then before else before + [clean[i].path]
  {
    assert clean[..i + 1][..i] == clean[..i];
  }

  function DroppedPaths(rules: Rules, stage: Stage, keep: string -> bool, clean: seq<File>): seq<string> {
    if clean == [] then []
    else
      var before := DroppedPaths(rules, stage, keep, clean[..|clean| - 1]);
      var file := clean[|clean| - 1];
      if Accepts(rules, stage, keep, file.path) then before else before + [file.path]
  }

  function Merged(rules: Rules, limits: Limits, t: Tree, stage: Stage, keep: string -> bool, files: seq<File>): Tree {
    MergedClean(rules, t, stage, keep, Sanitized(rules, limits, files))
  }

  function Accepted(rules: Rules, limits: Limits, stage: Stage, keep: string -> bool, files: seq<File>): seq<string> {
    AcceptedPaths(rules, stage, keep, Sanitized(rules, limits, files))
  }

  /** A merge changes exactly the accepted paths, and each to the accepted file. */
  lemma {:induction false} MergeChangesAccepted(rules: Rules, t: Tree, stage: Stage, keep: string -> bool,
                                                clean: seq<File>)
    ensures var t' := MergedClean(rules, t, stage, keep, clean); var paths := AcceptedPaths(rules, stage, keep, clean);
      && (forall p :: p in paths ==> p in t'.files && t'.files[p] in clean && t'.files[p].path == p)
      && (forall p :: p in paths ==> p in t'.origin && t'.origin[p] == stage)
      && (forall p :: p in paths ==> Accepts(rules, stage, keep, p))
      && (forall p :: p !in paths ==> (p in t'.files <==> p in t.files) && (p in t'.origin <==> p in t.origin))
      && (forall p :: p !in paths && p in t.files ==> t'.files[p] == t.files[p])
      && (forall p :: p !in paths && p in t.origin ==> t'.origin[p] == t.origin[p])
  {
    if clean != [] {
      var init := clean[..|clean| - 1];
      MergeChangesAccepted(rules, t, stage, keep, init);
      assert clean == init + [clean[|clean| - 1]];
    }
  }

  /** Every sanitised file that may be taken is taken, as it is. */
  lemma {:induction false} MergeTakesAccepted(rules: Rules, t: Tree, stage: Stage, keep: string -> bool,
                                              clean: seq<File>, f: File)
    requires DistinctKeys(rules, clean) && f in clean
    ensures f.path in AcceptedPaths(rules, stage, keep, clean) <==> Accepts(rules, stage, keep, f.path)
    ensures Accepts(rules, stage, keep, f.path) ==>
      var t' := MergedClean(rules, t, stage, keep, clean);
      f.path in t'.files && t'.files[f.path] == f && f.path in t'.origin && t'.origin[f.path] == stage
  {
    var init, last := clean[..|clean| - 1], clean[|clean| - 1];
    MergeChangesAccepted(rules, t, stage, keep, clean);
    if f in init {
      MergeTakesAccepted(rules, t, stage, keep, init, f);
      var i :| 0 <= i < |init| && init[i] == f;
      assert rules.key(clean[i].path) != rules.key(last.path);
    }
  }

  /** Every file is stored under its own normalised path, from the stage that owns that path. */
  ghost predicate Owned(rules: Rules, t: Tree) {
    && t.files.Keys == t.origin.Keys
    && forall p :: p in t.files ==>
        t.files[p].path == p && rules.normalize(p) == Some(p) && t.origin[p] == OwnerOf(rules, p)
  }

  /** A merge by a stage that keeps only its own paths leaves every path with its owner, whatever
      the files say. */
  lemma MergeKeepsOwnership(rules: Rules, limits: Limits, t: Tree, stage: Stage, keep: string -> bool, files: seq<File>)
    requires Stable(rules) && Owned(rules, t)
    requires forall f: File :: f in Sanitized(rules, limits, files) && Accepts(rules, stage, keep, f.path) ==>
      OwnerOf(rules, f.path) == stage
    ensures Owned(rules, Merged(rules, limits, t, stage, keep, files))
  {
    var clean := Sanitized(rules, limits, files);
    var t' := Merged(rules, limits, t, stage, keep, files);
    MergeChangesAccepted(rules, t, stage, keep, clean);
    SanitizedIsClean(rules, limits, files);
    forall p | p in t'.files
      ensures t'.files[p].path == p && rules.normalize(p) == Some(p) && t'.origin[p] == OwnerOf(rules, p)
    {
      if p in AcceptedPaths(rules, stage, keep, clean) {
        var i :| 0 <= i < |clean| && clean[i] == t'.files[p];
        assert Fine(rules, limits, clean[i]);
      }
    }
    forall p ensures p in t'.files <==> p in t'.origin {
      assert p in t.files <==> p in t.files.Keys;
      assert p in t.origin <==> p in t.origin.Keys;
    }
  }
}
