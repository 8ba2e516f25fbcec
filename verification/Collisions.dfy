/** Two stored files that are one file on a case-insensitive system: who can cause them and who cannot.
    `sanitize_files` (src/autoswe/pipeline/validation.py) rules them out within one batch of files. */
module Collisions {
  import opened Letters
  import opened Options
  import opened Paths
  import opened Ownership
  import opened Stages
  import Repairs

  ghost predicate DistinctTree(rules: Rules, t: Tree) {
    forall p, q :: p in t.files && q in t.files && p != q ==> rules.key(p) != rules.key(q)
  }

  /** No accepted path is another spelling of a stored one. */
  ghost predicate NoNewSpelling(rules: Rules, t: Tree, accepted: seq<string>) {
    forall p, q :: p in accepted && q in t.files && p != q ==> rules.key(p) != rules.key(q)
  }

  lemma {:induction false} AcceptedAreClean(rules: Rules, stage: Stage, keep: string -> bool, clean: seq<File>,
                                            p: string)
    requires p in AcceptedPaths(rules, stage, keep, clean)
    ensures exists i :: 0 <= i < |clean| && clean[i].path == p
  {
    if clean[|clean| - 1].path != p {
      AcceptedAreClean(rules, stage, keep, clean[..|clean| - 1], p);
      var i :| 0 <= i < |clean| - 1 && clean[..|clean| - 1][i].path == p;
      assert clean[i].path == p;
    }
  }

  /** A merge keeps the whole project free of collisions exactly when it accepts no other spelling of a
      path that is stored already. */
  lemma MergeKeepsKeysDistinct(rules: Rules, limits: Limits, t: Tree, stage: Stage, keep: string -> bool,
                               files: seq<File>)
    requires Stable(rules) && DistinctTree(rules, t)
    ensures DistinctTree(rules, Merged(rules, limits, t, stage, keep, files)) <==>
      NoNewSpelling(rules, t, Accepted(rules, limits, stage, keep, files))
  {
    var clean := Sanitized(rules, limits, files);
    var t' := Merged(rules, limits, t, stage, keep, files);
    var accepted := Accepted(rules, limits, stage, keep, files);
    MergeChangesAccepted(rules, t, stage, keep, clean);
    SanitizedIsClean(rules, limits, files);
    if NoNewSpelling(rules, t, accepted) {
      forall p, q | p in t'.files && q in t'.files && p != q
        ensures rules.key(p) != rules.key(q)
      {
        if p in accepted && q in accepted {
          AcceptedAreClean(rules, stage, keep, clean, p);
          AcceptedAreClean(rules, stage, keep, clean, q);
          var i :| 0 <= i < |clean| && clean[i].path == p;
          var j :| 0 <= j < |clean| && clean[j].path == q;
        }
      }
    }
  }

  /** Two spellings of one path always belong to the same stage. */
  lemma SpellingsShareTheirOwner(rules: Rules, p: string, q: string)
    requires rules.key(p) == rules.key(q)
    ensures OwnerOf(rules, p) == OwnerOf(rules, q)
  {
  }

  /** So no stage before the review can cause a collision, whatever the models answer. */
  lemma {:induction false} StagesNeverCollide(setup: Setup, k: nat)
    requires Sensible(setup) && k <= 4
    ensures DistinctTree(setup.rules, MemoryAt(setup, k).tree)
  {
    if k == 1 {
      assert Sanitized(setup.rules, setup.limits, Output(setup.agents, 0, MemoryAt(setup, 0))) == [];
    } else if k > 1 {
      StagesNeverCollide(setup, k - 1);
      StagesAreDisjoint(setup, k - 1);
      StageNeverCollides(setup, k - 1, MemoryAt(setup, k - 1));
    }
  }

  lemma StageNeverCollides(setup: Setup, k: nat, m: Memory)
    requires Sensible(setup) && CanRun(k, m) && k >= 1
    requires Owned(setup.rules, m.tree) && FromStages(m.tree, k) && DistinctTree(setup.rules, m.tree)
    ensures DistinctTree(setup.rules, NextTree(setup, k, m))
  {
    StageAddsNoSpelling(setup, k, m);
    MergeKeepsKeysDistinct(setup.rules, setup.limits, m.tree, STAGES[k], Keep(setup.rules, k),
      Output(setup.agents, k, m));
  }

  lemma StageAddsNoSpelling(setup: Setup, k: nat, m: Memory)
    requires Sensible(setup) && CanRun(k, m) && k >= 1
    requires Owned(setup.rules, m.tree) && FromStages(m.tree, k)
    ensures NoNewSpelling(setup.rules, m.tree, Produced(setup, k, m))
  {
    forall p: string, q: string | p in Produced(setup, k, m) && q in m.tree.files && p != q
      ensures setup.rules.key(p) != setup.rules.key(q)
    {
      AcceptedBelongToStage(setup, k, m, p);
      StoredBelongsToEarlier(setup.rules, m.tree, k, q);
    }
  }

  lemma StoredBelongsToEarlier(rules: Rules, t: Tree, k: nat, q: string)
    requires Owned(rules, t) && FromStages(t, k) && q in t.files && k < 5
    ensures OwnerOf(rules, q) != STAGES[k]
  {
    assert q in t.origin.Keys && t.origin[q] == OwnerOf(rules, q);
    assert IndexOf(STAGES[k]) == k;
  }

  lemma AcceptedBelongToStage(setup: Setup, k: nat, m: Memory, p: string)
    requires Sensible(setup) && CanRun(k, m) && k >= 1 && p in Produced(setup, k, m)
    ensures OwnerOf(setup.rules, p) == STAGES[k]
  {
    var output := Output(setup.agents, k, m);
    var clean := Sanitized(setup.rules, setup.limits, output);
    MergeChangesAccepted(setup.rules, m.tree, STAGES[k], Keep(setup.rules, k), clean);
    var f := NextTree(setup, k, m).files[p];
    assert f in clean && f.path == p;
    StageKeepsToItsPaths(setup, k, m, f);
  }

  /** A repair that only rewrites stored files causes none. */
  lemma RewritingKeepsKeysDistinct(rules: Rules, t: Tree, t': Tree)
    requires DistinctTree(rules, t) && t'.files.Keys == t.files.Keys
    ensures DistinctTree(rules, t')
  {
    forall p | p in t'.files ensures p in t.files { assert p in t'.files.Keys; }
  }

  // ------------------------------------------------------------------ repairing tests

  /** A repair of failing tests keeps the project free of collisions exactly when no new file it may add is
      another spelling of a stored one. */
  lemma TestRepairKeepsKeysDistinct(rules: Rules, limits: Limits, t: Tree, sent: set<string>, files: seq<File>)
    requires Stable(rules) && DistinctTree(rules, t)
    ensures var keep := Repairs.OwnedBy(rules, Repairs.Allowed(t.files, sent, files));
      var accepted := Accepted(rules, limits, Implement, keep, files);
      DistinctTree(rules, Merged(rules, limits, t, Implement, keep, files)) <==>
        forall p, q :: p in accepted && p !in t.files && q in t.files ==> rules.key(p) != rules.key(q)
  {
    var keep := Repairs.OwnedBy(rules, Repairs.Allowed(t.files, sent, files));
    MergeKeepsKeysDistinct(rules, limits, t, Implement, keep, files);
  }

  function OneFile(path: string, content: string): Tree {
    Tree(map[path := File(path, content, "")], map[path := Implement])
  }

  lemma ReadmeKeys(rules: Rules)
    requires FoldsAscii(rules)
    ensures rules.key("README.md") == rules.key("readme.md") == "readme.md"
  {
    KeyOfAscii(rules, "README.md", "readme.md");
    KeyOfAscii(rules, "readme.md", "readme.md");
  }

  lemma ReadmeIsSource(rules: Rules, path: string)
    requires FoldsAscii(rules) && rules.key(path) == "readme.md"
    ensures OwnerOf(rules, path) == Implement
  {
    PlatformKeys(rules);
    DevopsKeys(rules);
    assert "readme.md"[0] == 'r';
    forall i | 0 <= i < |PLATFORM_OWNED| ensures rules.key(PLATFORM_OWNED[i])[0] != 'r' {}
    forall i | 0 <= i < |DEVOPS_PREFIXES|
      ensures rules.key(DEVOPS_PREFIXES[i]) != "" && rules.key(DEVOPS_PREFIXES[i])[0] != 'r' {}
  }

  lemma OneTaken(rules: Rules, limits: Limits, f: File)
    requires rules.normalize(f.path) == Some(f.path)
    requires limits.maxFiles >= 1 && rules.bytes(f.content) <= limits.maxFileBytes
    requires rules.bytes(f.content) <= limits.maxTotalBytes
    ensures Sanitized(rules, limits, [f]) == [f]
  {
    assert [f][..0] == [];
    assert Taken(rules, limits, [f][..0]) == Progress([], 0, [], false);
    assert f.(path := f.path) == f;
    assert Put([], 0, f) == [f];
  }

  lemma OneAccepted(rules: Rules, t: Tree, keep: string -> bool, f: File)
    requires Accepts(rules, Implement, keep, f.path)
    ensures MergedClean(rules, t, Implement, keep, [f]) == WithFile(t, Implement, f)
  {
    assert [f][..0] == [];
    assert MergedClean(rules, t, Implement, keep, [f][..0]) == t;
  }

  /** A model asked to repair tests answers "readme.md" beside a stored "README.md", and both are kept. */
  lemma TestRepairCanCollide(rules: Rules, limits: Limits, before: string, after: string)
    requires FoldsAscii(rules) && Stable(rules)
    requires rules.normalize("README.md") == Some("README.md") && rules.normalize("readme.md") == Some("readme.md")
    requires limits.maxFiles >= 1 && rules.bytes(after) <= limits.maxFileBytes
    requires rules.bytes(after) <= limits.maxTotalBytes
    ensures var t := OneFile("README.md", before); var answer := [File("readme.md", after, "")];
      var keep := Repairs.OwnedBy(rules, Repairs.Allowed(t.files, {"README.md"}, answer));
      var t' := Merged(rules, limits, t, Implement, keep, answer);
      && Owned(rules, t) && DistinctTree(rules, t)
      && "README.md" in t'.files && "readme.md" in t'.files && !DistinctTree(rules, t')
  {
    var t, f := OneFile("README.md", before), File("readme.md", after, "");
    var allowed := Repairs.Allowed(t.files, {"README.md"}, [f]);
    ReadmeKeys(rules);
    ReadmeIsSource(rules, "README.md");
    ReadmeIsSource(rules, "readme.md");
    OneTaken(rules, limits, f);
    assert [f][0].path in allowed;
    var keep := Repairs.OwnedBy(rules, allowed);
    assert Accepts(rules, Implement, keep, "readme.md");
    OneAccepted(rules, t, keep, f);
    var t' := WithFile(t, Implement, f);
    assert "README.md"[0] != "readme.md"[0];
    assert "README.md" in t'.files && "readme.md" in t'.files;
  }
}
