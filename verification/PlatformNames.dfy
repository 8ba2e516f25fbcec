/** The platform's own file names pass `normalize_path` unchanged, so the real path rules are
    sensible for the stages. */
module PlatformNames {
  import opened Letters
  import opened Options
  import opened Paths
  import opened Ownership
  import opened Stages

  /** Printable ASCII is neither white space nor a format character, and folds to lower case. */
  ghost predicate AsciiIsPlain(u: Unicode) {
    && (forall c: char :: 0x20 < c as int < 0x80 ==> !u.isSpace(c) && !u.isFormat(c))
    && forall s: string :: Ascii(s) ==> u.casefold(s) == LowerAll(s)
  }

  /** Letters, dots and slashes. */
  predicate Tame(s: string) {
    forall i :: 0 <= i < |s| ==> 'a' <= s[i] <= 'z' || 'A' <= s[i] <= 'Z' || s[i] == '.' || s[i] == '/'
  }

  lemma FindIs(s: string, c: char, k: nat)
    requires k <= |s| && (k < |s| ==> s[k] == c) && forall i :: 0 <= i < k ==> s[i] != c
    ensures Find(s, c) == k
  {
    var i := Find(s, c);
    assert forall j :: 0 <= j < i ==> s[j] != c by {
      forall j | 0 <= j < i ensures s[j] != c {
        assert s[..i][j] in s[..i];
      }
    }
  }

  lemma TameIsStripped(u: Unicode, s: string)
    requires AsciiIsPlain(u) && Tame(s) && s != ""
    ensures Strip(u, s) == s
  {
    assert !u.isSpace(s[0]) && !u.isSpace(s[|s| - 1]);
  }

  /** A segment whose stem is longer than any reserved name. */
  lemma LongStemIsSafe(u: Unicode, part: string, stem: nat)
    requires AsciiIsPlain(u) && Tame(part) && 4 < stem < |part| && part[stem] == '.' && part[|part| - 1] != '.'
    requires forall i :: 0 <= i < stem ==> part[i] != '.'
    ensures !UnsafeSegment(u, part)
  {
    assert Ascii(part) && u.casefold(part) == LowerAll(part);
    FindIs(LowerAll(part), '.', stem);
    assert |LowerAll(part)| > 5;
  }

  lemma DocsIsSafe(u: Unicode)
    requires AsciiIsPlain(u)
    ensures !UnsafeSegment(u, "docs")
  {
    assert Ascii("docs") && u.casefold("docs") == LowerAll("docs") == "docs";
    FindIs("docs", '.', 4);
    assert "docs"[..4] == "docs";
    assert "docs"[0] == 'd';
  }

  lemma SegmentsOfTwo(dir: string, name: string, path: string)
    requires forall i :: 0 <= i < |dir| ==> dir[i] != '/'
    requires forall i :: 0 <= i < |name| ==> name[i] != '/'
    requires path == dir + ['/'] + name
    ensures Segments(path) == [dir, name]
  {
    FindIs(path, '/', |dir|);
    FindIs(name, '/', |name|);
    assert path[..|dir|] == dir;
    assert path[|dir| + 1..] == name;
    assert Segments(name) == [name];
  }

  lemma InDirectory(u: Unicode, dir: string, name: string, path: string, stem: nat)
    requires AsciiIsPlain(u) && Tame(dir) && Tame(name) && dir != "" && !UnsafeSegment(u, dir)
    requires 4 < stem < |name| && name[stem] == '.' && name[|name| - 1] != '.'
    requires forall i :: 0 <= i < stem ==> name[i] != '.'
    requires forall i :: 0 <= i < |dir| ==> dir[i] != '/'
    requires forall i :: 0 <= i < |name| ==> name[i] != '/'
    requires path == dir + ['/'] + name
    ensures NormalizePath(u, path) == Some(path)
  {
    LongStemIsSafe(u, name, stem);
    SegmentsOfTwo(dir, name, path);
    TameIsAcceptable(u, path, [dir, name]);
    TameIsStripped(u, path);
    JoinedSegments(path);
  }

  lemma TameIsAcceptable(u: Unicode, path: string, parts: seq<string>)
    requires AsciiIsPlain(u) && Tame(path) && path != "" && path[0] != '/' && Segments(path) == parts
    requires |parts| <= 2 && forall i :: 0 <= i < |parts| ==> !UnsafeSegment(u, parts[i])
    ensures Acceptable(u, path)
  {
  }

  lemma AtTop(u: Unicode, name: string)
    requires AsciiIsPlain(u) && Tame(name) && name != "" && !UnsafeSegment(u, name)
    requires forall i :: 0 <= i < |name| ==> name[i] != '/'
    ensures NormalizePath(u, name) == Some(name)
  {
    FindIs(name, '/', |name|);
    assert Segments(name) == [name];
    TameIsAcceptable(u, name, [name]);
    TameIsStripped(u, name);
    JoinedSegments(name);
  }

  lemma ArchitectureOverview(u: Unicode)
    requires AsciiIsPlain(u)
    ensures NormalizePath(u, "ARCHITECTURE.md") == Some("ARCHITECTURE.md")
  {
    LongStemIsSafe(u, "ARCHITECTURE.md", 12);
    AtTop(u, "ARCHITECTURE.md");
  }

  lemma InDocs(u: Unicode, name: string, path: string, stem: nat)
    requires AsciiIsPlain(u) && Tame(name)
    requires 4 < stem < |name| && name[stem] == '.' && name[|name| - 1] != '.'
    requires forall i :: 0 <= i < stem ==> name[i] != '.'
    requires forall i :: 0 <= i < |name| ==> name[i] != '/'
    requires path == "docs" + ['/'] + name
    ensures NormalizePath(u, path) == Some(path)
  {
    var dir := "docs";
    DocsIsSafe(u);
    assert Tame(dir) && forall i :: 0 <= i < |dir| ==> dir[i] != '/';
    InDirectory(u, dir, name, path, stem);
  }

  lemma ArchitectureDocument(u: Unicode)
    requires AsciiIsPlain(u)
    ensures NormalizePath(u, "docs/architecture.json") == Some("docs/architecture.json")
  {
    InDocs(u, "architecture.json", "docs/architecture.json", 12);
  }

  lemma RequirementsDocument(u: Unicode)
    requires AsciiIsPlain(u)
    ensures NormalizePath(u, "docs/requirements.json") == Some("docs/requirements.json")
  {
    InDocs(u, "requirements.json", "docs/requirements.json", 12);
  }

  /** With Python's path rules, every theorem about the stages applies. */
  lemma RealRulesAreSensible(u: Unicode, agents: Agents, limits: Limits)
    requires AsciiIsPlain(u)
    ensures Sensible(Setup(agents, RulesOf(u), limits))
  {
    RulesOfAreStable(u);
    ArchitectureOverview(u);
    ArchitectureDocument(u);
    RequirementsDocument(u);
    SensibleByNames(Setup(agents, RulesOf(u), limits));
  }

  lemma SensibleByNames(setup: Setup)
    requires Stable(setup.rules)
    requires setup.rules.normalize("ARCHITECTURE.md") == Some("ARCHITECTURE.md")
    requires setup.rules.normalize("docs/architecture.json") == Some("docs/architecture.json")
    requires setup.rules.normalize("docs/requirements.json") == Some("docs/requirements.json")
    ensures Sensible(setup)
  {
  }
}
