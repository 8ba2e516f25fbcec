/** What sanitising a batch of files keeps and what it reports, exactly. Models `sanitize_files` of
    src/autoswe/pipeline/validation.py. */
module Sanitizing {
  import opened Options
  import opened Paths

  /** A safe path and a size within the limit for one file. */
  ghost predicate Usable(rules: Rules, limits: Limits, f: File) {
    rules.normalize(f.path).Some? && rules.bytes(f.content) <= limits.maxFileBytes
  }

  ghost function Safe(rules: Rules, f: File): File
    requires rules.normalize(f.path).Some?
  {
    f.(path := rules.normalize(f.path).value)
  }

  /** Both are usable, under paths that are one file on a case-insensitive system. */
  ghost predicate SameFile(rules: Rules, limits: Limits, f: File, g: File) {
    && Usable(rules, limits, f) && Usable(rules, limits, g)
    && rules.key(rules.normalize(f.path).value) == rules.key(rules.normalize(g.path).value)
  }

  /** The last usable file of this name. */
  ghost predicate Latest(rules: Rules, limits: Limits, files: seq<File>, i: nat) {
    && i < |files| && Usable(rules, limits, files[i])
    && forall j :: i < j < |files| ==> !SameFile(rules, limits, files[i], files[j])
  }

  lemma LatestOfMore(rules: Rules, limits: Limits, files: seq<File>, last: File, i: nat)
    requires i < |files|
    ensures Latest(rules, limits, files + [last], i) <==>
      Latest(rules, limits, files, i) && !SameFile(rules, limits, files[i], last)
  {
    var all := files + [last];
    assert forall j :: 0 <= j < |files| ==> all[j] == files[j];
    assert all[|files|] == last;
    if Latest(rules, limits, files, i) && !SameFile(rules, limits, files[i], last) {
      forall j | i < j < |all| ensures !SameFile(rules, limits, all[i], all[j]) {
        if j < |files| { assert all[j] == files[j]; }
      }
    }
    if Latest(rules, limits, all, i) {
      forall j | i < j < |files| ensures !SameFile(rules, limits, files[i], files[j]) { assert all[j] == files[j]; }
    }
  }

  lemma PutIs(rules: Rules, files: seq<File>, f: File, g: File)
    requires DistinctKeys(rules, files)
    ensures var after := Put(files, PlaceOf(rules, files, rules.key(f.path)), f);
      g in after <==> g == f || (g in files && rules.key(g.path) != rules.key(f.path))
  {
    var i := PlaceOf(rules, files, rules.key(f.path));
    var after := Put(files, i, f);
    if g in files && rules.key(g.path) != rules.key(f.path) {
      var k :| 0 <= k < |files| && files[k] == g;
      assert after[k] == g;
    }
    if g in after && g != f {
      var k :| 0 <= k < |after| && after[k] == g;
      assert k < |files| && files[k] == g && (i < |files| ==> k != i);
    }
    if i < |files| { assert after[i] == f; } else { assert after[|files|] == f; }
  }

  ghost predicate KeptAre(rules: Rules, limits: Limits, files: seq<File>, kept: seq<File>) {
    && (forall i: nat :: Latest(rules, limits, files, i) ==> Safe(rules, files[i]) in kept)
    && (forall f :: f in kept ==> exists i: nat :: Latest(rules, limits, files, i) && f == Safe(rules, files[i]))
  }

  lemma KeptOfMore(rules: Rules, limits: Limits, files: seq<File>, kept: seq<File>, last: File, after: seq<File>)
    requires KeptAre(rules, limits, files, kept) && Clean(rules, limits, kept) && Usable(rules, limits, last)
    requires after == Put(kept, PlaceOf(rules, kept, rules.key(Safe(rules, last).path)), Safe(rules, last))
    ensures KeptAre(rules, limits, files + [last], after)
  {
    var all, f := files + [last], Safe(rules, last);
    forall i: nat | Latest(rules, limits, all, i) ensures Safe(rules, all[i]) in after {
      if i < |files| {
        LatestOfMore(rules, limits, files, last, i);
        PutIs(rules, kept, f, Safe(rules, files[i]));
      } else {
        PutIs(rules, kept, f, f);
      }
    }
    forall g | g in after ensures exists i: nat :: Latest(rules, limits, all, i) && g == Safe(rules, all[i]) {
      PutIs(rules, kept, f, g);
      if g == f {
        assert Latest(rules, limits, all, |files|) && g == Safe(rules, all[|files|]);
      } else {
        var i: nat :| Latest(rules, limits, files, i) && g == Safe(rules, files[i]);
        LatestOfMore(rules, limits, files, last, i);
        assert Latest(rules, limits, all, i) && g == Safe(rules, all[i]);
      }
    }
  }

  lemma KeptOfUnusable(rules: Rules, limits: Limits, files: seq<File>, kept: seq<File>, last: File)
    requires KeptAre(rules, limits, files, kept) && !Usable(rules, limits, last)
    ensures KeptAre(rules, limits, files + [last], kept)
  {
    var all := files + [last];
    forall i: nat | i < |files| ensures Latest(rules, limits, all, i) <==> Latest(rules, limits, files, i) {
      LatestOfMore(rules, limits, files, last, i);
    }
    forall g | g in kept ensures exists i: nat :: Latest(rules, limits, all, i) && g == Safe(rules, all[i]) {
      var i: nat :| Latest(rules, limits, files, i) && g == Safe(rules, files[i]);
      assert Latest(rules, limits, all, i);
    }
  }

  /** Unless a limit stopped it, sanitising keeps exactly the last usable file of every name. */
  lemma {:induction false} KeptExactly(rules: Rules, limits: Limits, files: seq<File>)
    requires Stable(rules) && !Taken(rules, limits, files).stopped
    ensures KeptAre(rules, limits, files, Sanitized(rules, limits, files))
  {
    if files != [] {
      var init, last := files[..|files| - 1], files[|files| - 1];
      assert files == init + [last];
      KeptExactly(rules, limits, init);
      SanitizedIsClean(rules, limits, init);
      if Usable(rules, limits, last) {
        KeptOfMore(rules, limits, init, Sanitized(rules, limits, init), last, Sanitized(rules, limits, files));
      } else {
        KeptOfUnusable(rules, limits, init, Sanitized(rules, limits, init), last);
      }
    }
  }

  /** The next file is one too many, or makes the batch too large. */
  ghost predicate Overflows(rules: Rules, limits: Limits, kept: seq<File>, f: File) {
    Usable(rules, limits, f) &&
    var i := PlaceOf(rules, kept, rules.key(Safe(rules, f).path));
    || (i == |kept| && |kept| >= limits.maxFiles)
    || rules.bytes(f.content) + Sizes(rules, kept) - (if i < |kept| then rules.bytes(kept[i].content) else 0)
         > limits.maxTotalBytes
  }

  /** It is stopped exactly by the first file that does not fit in, and keeps what it had until then. */
  lemma StopsExactly(rules: Rules, limits: Limits, files: seq<File>, next: File)
    requires Stable(rules) && !Taken(rules, limits, files).stopped
    ensures Taken(rules, limits, files + [next]).stopped <==>
      Overflows(rules, limits, Sanitized(rules, limits, files), next)
    ensures Taken(rules, limits, files + [next]).stopped ==>
      Sanitized(rules, limits, files + [next]) == Sanitized(rules, limits, files)
  {
    assert (files + [next])[..|files|] == files;
    SanitizedIsClean(rules, limits, files);
  }

  // ------------------------------------------------------------------ what is reported

  /** A usable file of this name. */
  ghost predicate Named(rules: Rules, limits: Limits, f: File, key: string) {
    Usable(rules, limits, f) && rules.key(rules.normalize(f.path).value) == key
  }

  /** A name is kept as soon as a usable file has it. */
  lemma {:induction false} NameIsKept(rules: Rules, limits: Limits, files: seq<File>, key: string)
    requires Stable(rules) && !Taken(rules, limits, files).stopped
    ensures var kept := Sanitized(rules, limits, files);
      PlaceOf(rules, kept, key) < |kept| <==> exists i :: 0 <= i < |files| && Named(rules, limits, files[i], key)
  {
    if files != [] {
      var init, last := files[..|files| - 1], files[|files| - 1];
      assert files == init + [last];
      NameIsKept(rules, limits, init, key);
      SanitizedIsClean(rules, limits, init);
      var before, kept := Sanitized(rules, limits, init), Sanitized(rules, limits, files);
      if Usable(rules, limits, last) { PlaceAfter(rules, before, Safe(rules, last), key); }
      if i :| 0 <= i < |init| && Named(rules, limits, init[i], key) {
        assert Named(rules, limits, files[i], key);
      }
    }
  }

  lemma PlaceAfter(rules: Rules, files: seq<File>, f: File, key: string)
    requires DistinctKeys(rules, files)
    ensures var after := Put(files, PlaceOf(rules, files, rules.key(f.path)), f);
      PlaceOf(rules, after, key) < |after| <==> rules.key(f.path) == key || PlaceOf(rules, files, key) < |files|
  {
    var after := Put(files, PlaceOf(rules, files, rules.key(f.path)), f);
    var k, n := PlaceOf(rules, files, key), PlaceOf(rules, after, key);
    PutIs(rules, files, f, f);
    if k < |files| && rules.key(f.path) != key { PutIs(rules, files, f, files[k]); }
    if n < |after| { PutIs(rules, files, f, after[n]); }
  }

  /** What is wrong with one file. */
  ghost predicate Refuses(rules: Rules, limits: Limits, f: File, issue: Issue) {
    if rules.normalize(f.path).None? then issue == Issue("error", "path-safety", None)
    else
      rules.bytes(f.content) > limits.maxFileBytes && issue == Issue("error", "file-size", rules.normalize(f.path))
  }

  ghost predicate Replaces(rules: Rules, limits: Limits, f: File, g: File, issue: Issue) {
    SameFile(rules, limits, f, g) && issue == Issue("warning", "duplicate-path", rules.normalize(g.path))
  }

  ghost predicate Reported(rules: Rules, limits: Limits, files: seq<File>, issue: Issue) {
    || (exists i :: 0 <= i < |files| && Refuses(rules, limits, files[i], issue))
    || (exists i, j :: 0 <= i < j < |files| && Replaces(rules, limits, files[i], files[j], issue))
  }

  lemma ReportedOfMore(rules: Rules, limits: Limits, files: seq<File>, last: File, issue: Issue)
    ensures Reported(rules, limits, files + [last], issue) <==>
      || Reported(rules, limits, files, issue) || Refuses(rules, limits, last, issue)
      || exists i :: 0 <= i < |files| && Replaces(rules, limits, files[i], last, issue)
  {
    var all := files + [last];
    assert all[|files|] == last && forall i :: 0 <= i < |files| ==> all[i] == files[i];
    if i :| 0 <= i < |files| && Refuses(rules, limits, files[i], issue) {
      assert Refuses(rules, limits, all[i], issue);
    }
    if i, j :| 0 <= i < j < |files| && Replaces(rules, limits, files[i], files[j], issue) {
      assert Replaces(rules, limits, all[i], all[j], issue);
    }
    if i :| 0 <= i < |files| && Replaces(rules, limits, files[i], last, issue) {
      assert Replaces(rules, limits, all[i], all[|files|], issue);
    }
  }

  /** Unless a limit stopped it, every unsafe path, every file that is too large and, as a warning, every file that
      replaces an earlier one is reported, and nothing else. */
  lemma {:induction false} ReportsExactly(rules: Rules, limits: Limits, files: seq<File>, issue: Issue)
    requires Stable(rules) && !Taken(rules, limits, files).stopped
    ensures issue in Taken(rules, limits, files).issues <==> Reported(rules, limits, files, issue)
  {
    if files != [] {
      var init, last := files[..|files| - 1], files[|files| - 1];
      assert files == init + [last];
      ReportsExactly(rules, limits, init, issue);
      ReportedOfMore(rules, limits, init, last, issue);
      if Usable(rules, limits, last) {
        var path := rules.normalize(last.path);
        NameIsKept(rules, limits, init, rules.key(path.value));
        if i :| 0 <= i < |init| && Named(rules, limits, init[i], rules.key(path.value)) {
          assert SameFile(rules, limits, init[i], last);
          assert issue == Issue("warning", "duplicate-path", path) ==> Replaces(rules, limits, init[i], last, issue);
        } else {
          assert forall i :: 0 <= i < |init| ==> !SameFile(rules, limits, init[i], last);
        }
      }
    }
  }

  /** The file that does not fit in is the last thing reported. */
  lemma StopIsReported(rules: Rules, limits: Limits, files: seq<File>, next: File)
    requires !Taken(rules, limits, files).stopped && Taken(rules, limits, files + [next]).stopped
    ensures var issues := Taken(rules, limits, files + [next]).issues;
      && issues != [] && Taken(rules, limits, files).issues <= issues
      && issues[|issues| - 1] in {Issue("error", "file-count", None),
                                  Issue("error", "total-size", rules.normalize(next.path))}
  {
    assert (files + [next])[..|files|] == files;
  }
}
