/** Path safety and size limits for generated files.
    Models `normalize_path`, `path_key` and `sanitize_files` of src/autoswe/pipeline/validation.py. */
module Paths {
  import opened Letters
  import opened Options

  /** What Python's Unicode tables and codecs answer: white space for `strip`, category Cf,
      `casefold`, the identity on case-insensitive file systems, the length in UTF-8. */
  datatype Unicode = Unicode(
    isSpace: char -> bool, isFormat: char -> bool, casefold: string -> string,
    pathKey: string -> string, bytes: string -> nat)

  datatype File = File(path: string, content: string, description: string)

  datatype Limits = Limits(maxFiles: nat, maxFileBytes: nat, maxTotalBytes: nat)

  const MAX_PATH_DEPTH := 8

  // ------------------------------------------------------------------ text

  function StripLeft(u: Unicode, s: string): (r: string)
    ensures r != "" ==> !u.isSpace(r[0])
    ensures s != "" && !u.isSpace(s[0]) ==> r == s
    ensures |r| <= |s| && r == s[|s| - |r|..]
  {
    if s != "" && u.isSpace(s[0]) then StripLeft(u, s[1..]) else s
  }

  function StripRight(u: Unicode, s: string): (r: string)
    ensures r != "" ==> !u.isSpace(r[|r| - 1])
    ensures s != "" && !u.isSpace(s[|s| - 1]) ==> r == s
    ensures |r| <= |s| && r == s[..|r|]
  {
    if s != "" && u.isSpace(s[|s| - 1]) then StripRight(u, s[..|s| - 1]) else s
  }

  function Strip(u: Unicode, s: string): string {
    StripRight(u, StripLeft(u, s))
  }

  function Segments(s: string): (parts: seq<string>)
    ensures |parts| >= 1
  {
    var i := Find(s, '/');
    if i == |s| then [s] else [s[..i]] + Segments(s[i + 1..])
  }

  /** `str(PurePosixPath(*parts))` for parts that are neither empty nor dots. */
  function Joined(parts: seq<string>): string
    requires |parts| >= 1
  {
    if |parts| == 1 then parts[0] else parts[0] + "/" + Joined(parts[1..])
  }

  lemma JoinedFirst(head: string, rest: seq<string>)
    requires |rest| >= 1
    ensures Joined([head] + rest) == head + "/" + Joined(rest)
  {
    assert ([head] + rest)[1..] == rest;
  }

  lemma {:induction false} JoinedSegments(s: string)
    ensures Joined(Segments(s)) == s
    decreases |s|
  {
    var i := Find(s, '/');
    if i < |s| {
      var rest := Segments(s[i + 1..]);
      JoinedSegments(s[i + 1..]);
      JoinedFirst(s[..i], rest);
      assert s == s[..i] + "/" + s[i + 1..];
    }
  }

  // ------------------------------------------------------------------ one path

  predicate InvalidChar(c: char) {
    c in "<>:\"|?*" || c as int < 0x20 || c as int == 0x7f
  }

  const RESERVED := {"con", "prn", "aux", "nul",
                     "com1", "com2", "com3", "com4", "com5", "com6", "com7", "com8", "com9",
                     "lpt1", "lpt2", "lpt3", "lpt4", "lpt5", "lpt6", "lpt7", "lpt8", "lpt9"}

  predicate UnsafeSegment(u: Unicode, part: string) {
    || part in {"", ".", ".."}
    || part[|part| - 1] in ". "
    || u.casefold(part) in {".git", "git~1"}
    || u.casefold(part)[..Find(u.casefold(part), '.')] in RESERVED
  }

  predicate Acceptable(u: Unicode, candidate: string) {
    && candidate != "" && '\\' !in candidate && candidate[0] != '/'
    && (forall i :: 0 <= i < |candidate| ==> !InvalidChar(candidate[i]) && !u.isFormat(candidate[i]))
    && |Segments(candidate)| <= MAX_PATH_DEPTH
    && forall i :: 0 <= i < |Segments(candidate)| ==> !UnsafeSegment(u, Segments(candidate)[i])
  }

  function NormalizePath(u: Unicode, raw: string): Option<string> {
    var candidate := Strip(u, raw);
    if Acceptable(u, candidate) then Some(Joined(Segments(candidate))) else None
  }

  lemma StripIsStripped(u: Unicode, s: string)
    ensures Strip(u, Strip(u, s)) == Strip(u, s)
  {
    var l, t := StripLeft(u, s), Strip(u, s);
    if t != "" { assert t[0] == l[0]; }
  }

  /** A normalised path is a fixed point, and is safe as it stands. */
  lemma NormalizeIdempotent(u: Unicode, raw: string)
    ensures NormalizePath(u, raw).Some? ==>
      var p := NormalizePath(u, raw).value;
      p == Strip(u, raw) && Acceptable(u, p) && NormalizePath(u, p) == Some(p)
  {
    StripIsStripped(u, raw);
    JoinedSegments(Strip(u, raw));
  }

  // ------------------------------------------------------------------ many files

  datatype Issue = Issue(severity: string, rule: string, file: Option<string>)

  /** How files are judged: `normalize_path`, `path_key` and the encoded length. */
  datatype Rules = Rules(normalize: string -> Option<string>, key: string -> string, bytes: string -> nat)

  function RulesOf(u: Unicode): Rules {
    Rules((raw: string) => NormalizePath(u, raw), u.pathKey, u.bytes)
  }

  /** Normalising a normalised path changes nothing. */
  ghost predicate Stable(rules: Rules) {
    forall raw: string :: rules.normalize(raw).Some? ==>
      rules.normalize(rules.normalize(raw).value) == rules.normalize(raw)
  }

  lemma RulesOfAreStable(u: Unicode)
    ensures Stable(RulesOf(u))
  {
    forall raw: string | RulesOf(u).normalize(raw).Some?
      ensures RulesOf(u).normalize(RulesOf(u).normalize(raw).value) == RulesOf(u).normalize(raw)
    {
      NormalizeIdempotent(u, raw);
    }
  }

  function Sizes(rules: Rules, files: seq<File>): nat {
    if files == [] then 0 else Sizes(rules, files[..|files| - 1]) + rules.bytes(files[|files| - 1].content)
  }

  /** The place of the entry with this key; the length when there is none. */
  function PlaceOf(rules: Rules, files: seq<File>, key: string): (i: nat)
    ensures i <= |files|
    ensures i < |files| ==> rules.key(files[i].path) == key
    ensures forall j :: 0 <= j < i ==> rules.key(files[j].path) != key
  {
    if files == [] || rules.key(files[0].path) == key then 0 else 1 + PlaceOf(rules, files[1..], key)
  }

  /** `accepted` is in insertion order; a replaced entry keeps its place, as in a dict. */
  datatype Progress = Progress(accepted: seq<File>, total: int, issues: seq<Issue>, stopped: bool)

  function Report(s: Progress, severity: string, rule: string, file: Option<string>): Progress {
    s.(issues := s.issues + [Issue(severity, rule, file)])
  }

  function Put(files: seq<File>, i: nat, file: File): seq<File>
    requires i <= |files|
  {
    if i < |files| then files[i := file] else files + [file]
  }

  /** A file with a usable path and size, whose key has place `i`. */
  function TakeAt(rules: Rules, limits: Limits, s: Progress, file: File, i: nat): Progress
    requires i <= |s.accepted|
  {
    var size := rules.bytes(file.content);
    if i == |s.accepted| && |s.accepted| >= limits.maxFiles
      then Report(s, "error", "file-count", None).(stopped := true)
    else
      var s' := if i < |s.accepted|
        then Report(s.(total := s.total - rules.bytes(s.accepted[i].content)),
          "warning", "duplicate-path", Some(file.path))
        else s;
      if s'.total + size > limits.maxTotalBytes
        then Report(s', "error", "total-size", Some(file.path)).(stopped := true)
      else s'.(accepted := Put(s.accepted, i, file), total := s'.total + size)
  }

  function TakeFile(rules: Rules, limits: Limits, s: Progress, file: File): Progress {
    if s.stopped then s
    else
      var path := rules.normalize(file.path);
      if path.None? then Report(s, "error", "path-safety", None)
      else if rules.bytes(file.content) > limits.maxFileBytes then Report(s, "error", "file-size", path)
      else TakeAt(rules, limits, s, file.(path := path.value), PlaceOf(rules, s.accepted, rules.key(path.value)))
  }

  function Taken(rules: Rules, limits: Limits, files: seq<File>): Progress {
    if files == [] then Progress([], 0, [], false)
    else TakeFile(rules, limits, Taken(rules, limits, files[..|files| - 1]), files[|files| - 1])
  }

  function Sanitized(rules: Rules, limits: Limits, files: seq<File>): seq<File> {
    Taken(rules, limits, files).accepted
  }

  lemma {:induction false} StoppedStays(rules: Rules, limits: Limits, files: seq<File>, i: nat)
    requires i <= |files| && Taken(rules, limits, files[..i]).stopped
    ensures Taken(rules, limits, files) == Taken(rules, limits, files[..i])
    decreases |files| - i
  {
    if i < |files| {
      assert files[..i + 1][..i] == files[..i];
      StoppedStays(rules, limits, files, i + 1);
    } else {
      assert files[..i] == files;
    }
  }

  method SanitizeFiles(rules: Rules, limits: Limits, files: seq<File>) returns (accepted: seq<File>, issues: seq<Issue>)
    ensures accepted == Sanitized(rules, limits, files) && issues == Taken(rules, limits, files).issues
  {
    accepted, issues := [], [];
    var total := 0;
    for n := 0 to |files|
      invariant Taken(rules, limits, files[..n]) == Progress(accepted, total, issues, false)
    {
      assert files[..n + 1][..n] == files[..n];
      var file := files[n];
      var path := rules.normalize(file.path);
      if path.None? {
        issues := issues + [Issue("error", "path-safety", None)];
        continue;
      }
      var size := rules.bytes(file.content);
      if size > limits.maxFileBytes {
        issues := issues + [Issue("error", "file-size", path)];
        continue;
      }
      var i := PlaceOf(rules, accepted, rules.key(path.value));
      if i < |accepted| {
        total := total - rules.bytes(accepted[i].content);
        issues := issues + [Issue("warning", "duplicate-path", path)];
      } else if |accepted| >= limits.maxFiles {
        issues := issues + [Issue("error", "file-count", None)];
        StoppedStays(rules, limits, files, n + 1);
        return;
      }
      if total + size > limits.maxTotalBytes {
        issues := issues + [Issue("error", "total-size", path)];
        StoppedStays(rules, limits, files, n + 1);
        return;
      }
      accepted := Put(accepted, i, file.(path := path.value));
      total := total + size;
    }
    assert files[..|files|] == files;
  }

  // ------------------------------------------------------------------ what sanitising guarantees

  ghost predicate DistinctKeys(rules: Rules, files: seq<File>) {
    forall i, j :: 0 <= i < j < |files| ==> rules.key(files[i].path) != rules.key(files[j].path)
  }

  ghost predicate Fine(rules: Rules, limits: Limits, file: File) {
    rules.normalize(file.path) == Some(file.path) && rules.bytes(file.content) <= limits.maxFileBytes
  }

  /** Safe paths, no two the same file on a case-insensitive system, within every limit. */
  ghost predicate Clean(rules: Rules, limits: Limits, files: seq<File>) {
    && DistinctKeys(rules, files) && |files| <= limits.maxFiles && Sizes(rules, files) <= limits.maxTotalBytes
    && forall i :: 0 <= i < |files| ==> Fine(rules, limits, files[i])
  }

  lemma {:induction false} SizesReplace(rules: Rules, files: seq<File>, i: nat, f: File)
    requires i < |files|
    ensures Sizes(rules, files[i := f]) == Sizes(rules, files) - rules.bytes(files[i].content) + rules.bytes(f.content)
    decreases |files|
  {
    var init := files[..|files| - 1];
    if i < |files| - 1 {
      assert files[i := f][..|files| - 1] == init[i := f];
      SizesReplace(rules, init, i, f);
    } else {
      assert files[i := f][..|files| - 1] == init;
    }
  }

  ghost predicate Counted(rules: Rules, s: Progress) {
    !s.stopped ==> s.total == Sizes(rules, s.accepted)
  }

  lemma PutKeepsClean(rules: Rules, limits: Limits, files: seq<File>, file: File)
    requires Clean(rules, limits, files) && Fine(rules, limits, file)
    ensures var i := PlaceOf(rules, files, rules.key(file.path)); var after := Put(files, i, file);
      && DistinctKeys(rules, after) && forall k :: 0 <= k < |after| ==> Fine(rules, limits, after[k])
  {
  }

  lemma PutSizes(rules: Rules, files: seq<File>, i: nat, file: File)
    requires i <= |files|
    ensures Sizes(rules, Put(files, i, file)) == rules.bytes(file.content) +
      if i < |files| then Sizes(rules, files) - rules.bytes(files[i].content) else Sizes(rules, files)
  {
    if i < |files| {
      SizesReplace(rules, files, i, file);
    } else {
      assert (files + [file])[..|files|] == files;
    }
  }

  lemma TakeAtKeepsClean(rules: Rules, limits: Limits, s: Progress, file: File)
    requires Clean(rules, limits, s.accepted) && !s.stopped && Counted(rules, s) && Fine(rules, limits, file)
    ensures var s' := TakeAt(rules, limits, s, file, PlaceOf(rules, s.accepted, rules.key(file.path)));
      Clean(rules, limits, s'.accepted) && Counted(rules, s')
  {
    PutKeepsClean(rules, limits, s.accepted, file);
    PutSizes(rules, s.accepted, PlaceOf(rules, s.accepted, rules.key(file.path)), file);
  }

  /** Whatever the model returns, what is kept is clean, even after replaced duplicates and an early stop. */
  lemma {:induction false} SanitizedIsClean(rules: Rules, limits: Limits, files: seq<File>)
    requires Stable(rules)
    ensures Clean(rules, limits, Sanitized(rules, limits, files)) && Counted(rules, Taken(rules, limits, files))
  {
    if files != [] {
      SanitizedIsClean(rules, limits, files[..|files| - 1]);
      var s, file := Taken(rules, limits, files[..|files| - 1]), files[|files| - 1];
      var path := rules.normalize(file.path);
      if !s.stopped && path.Some? && rules.bytes(file.content) <= limits.maxFileBytes {
        TakeAtKeepsClean(rules, limits, s, file.(path := path.value));
      }
    }
  }

  lemma NextIsTaken(rules: Rules, limits: Limits, files: seq<File>, f: File)
    requires Clean(rules, limits, files + [f])
    ensures TakeFile(rules, limits, Progress(files, Sizes(rules, files), [], false), f)
      == Progress(files + [f], Sizes(rules, files + [f]), [], false)
  {
    var all := files + [f];
    var i := PlaceOf(rules, files, rules.key(f.path));
    assert all[|files|] == f && Fine(rules, limits, all[|files|]);
    assert forall j :: 0 <= j < |files| ==> rules.key(all[j].path) != rules.key(all[|files|].path);
    assert f.(path := f.path) == f && all[..|files|] == files;
  }

  lemma {:induction false} CleanIsTakenWhole(rules: Rules, limits: Limits, files: seq<File>)
    requires Clean(rules, limits, files)
    ensures Taken(rules, limits, files) == Progress(files, Sizes(rules, files), [], false)
  {
    if files != [] {
      var init, f := files[..|files| - 1], files[|files| - 1];
      assert files == init + [f];
      CleanIsTakenWhole(rules, limits, init);
      NextIsTaken(rules, limits, init, f);
    }
  }

  /** Sanitising twice changes nothing and reports nothing. */
  lemma SanitizeIdempotent(rules: Rules, limits: Limits, files: seq<File>)
    requires Stable(rules)
    ensures var once := Taken(rules, limits, Sanitized(rules, limits, files));
      once.accepted == Sanitized(rules, limits, files) && once.issues == []
  {
    var once := Sanitized(rules, limits, files);
    SanitizedIsClean(rules, limits, files);
    CleanIsTakenWhole(rules, limits, once);
  }

  ghost predicate ComesFrom(rules: Rules, files: seq<File>, f: File) {
    exists g :: g in files && rules.normalize(g.path) == Some(f.path) && f == g.(path := f.path)
  }

  /** Nothing is invented: every kept file is an input file under its normalised path. */
  lemma {:induction false} SanitizedComesFromInput(rules: Rules, limits: Limits, files: seq<File>)
    ensures forall f :: f in Sanitized(rules, limits, files) ==> ComesFrom(rules, files, f)
  {
    if files != [] {
      var init, last := files[..|files| - 1], files[|files| - 1];
      SanitizedComesFromInput(rules, limits, init);
      var before := Sanitized(rules, limits, init);
      forall f | f in Sanitized(rules, limits, files)
        ensures ComesFrom(rules, files, f)
      {
        if f in before {
          var g :| g in init && rules.normalize(g.path) == Some(f.path) && f == g.(path := f.path);
          assert g in files;
        } else {
          assert last in files;
        }
      }
    }
  }

  // ------------------------------------------------------------------ where a kept path leads

  /** Where a file system ends up, walking these segments from inside the project: "." and "" stay, ".." goes
      up, and going up from the root leaves the project. */
  function Walk(at: seq<string>, parts: seq<string>): Option<seq<string>>
    decreases |parts|
  {
    if parts == [] then Some(at)
    else if parts[0] == "" || parts[0] == "." then Walk(at, parts[1..])
    else if parts[0] != ".." then Walk(at + [parts[0]], parts[1..])
    else if at == [] then None
    else Walk(at[..|at| - 1], parts[1..])
  }

  lemma {:induction false} PlainSegmentsWalk(at: seq<string>, parts: seq<string>)
    requires forall i :: 0 <= i < |parts| ==> parts[i] != "" && parts[i] != "." && parts[i] != ".."
    ensures Walk(at, parts) == Some(at + parts)
    decreases |parts|
  {
    if parts == [] {
      assert at + parts == at;
    } else {
      PlainSegmentsWalk(at + [parts[0]], parts[1..]);
      assert at + parts == at + [parts[0]] + parts[1..];
    }
  }

  /** The name Windows keeps of a segment. */
  function WithoutTrailingDots(part: string): string {
    if part != "" && (part[|part| - 1] == '.' || part[|part| - 1] == ' ') then WithoutTrailingDots(part[..|part| - 1])
    else part
  }

  /** Names of devices, whatever extension follows. */
  predicate IsDevice(u: Unicode, part: string) {
    var stem := u.casefold(part)[..Find(u.casefold(part), '.')];
    || stem == "con" || stem == "prn" || stem == "aux" || stem == "nul"
    || (|stem| == 4 && (stem[..3] == "com" || stem[..3] == "lpt") && '1' <= stem[3] <= '9')
  }

  predicate HarmlessSegment(u: Unicode, part: string) {
    && WithoutTrailingDots(part) == part && part != "" && !IsDevice(u, part)
    && u.casefold(part) != ".git" && u.casefold(part) != "git~1"
  }

  predicate StorableChar(u: Unicode, c: char) {
    && c as int >= 0x20 && c as int != 0x7f && !u.isFormat(c)
    && c != '<' && c != '>' && c != ':' && c != '"' && c != '|' && c != '?' && c != '*' && c != '\\'
  }

  lemma ValidCharIsStorable(u: Unicode, c: char)
    requires !InvalidChar(c) && !u.isFormat(c) && c != '\\'
    ensures StorableChar(u, c)
  {
    var invalid := "<>:\"|?*";
    assert invalid[0] == '<' && invalid[1] == '>' && invalid[2] == ':' && invalid[3] == '"';
    assert invalid[4] == '|' && invalid[5] == '?' && invalid[6] == '*';
  }

  lemma SafeSegmentIsHarmless(u: Unicode, part: string)
    requires !UnsafeSegment(u, part)
    ensures HarmlessSegment(u, part) && part != "." && part != ".."
  {
    var folded := u.casefold(part);
    var stem := folded[..Find(folded, '.')];
    assert stem !in RESERVED && folded != ".git" && folded != "git~1";
    assert part[|part| - 1] != '.' && part[|part| - 1] != ' ';
    if |stem| == 4 && '1' <= stem[3] <= '9' {
      DeviceNumbers(stem[3]);
      assert stem == stem[..3] + [stem[3]];
    }
  }

  lemma DeviceNumbers(c: char)
    requires '1' <= c <= '9'
    ensures "com" + [c] in RESERVED && "lpt" + [c] in RESERVED
  {
    if c == '1' { assert "com" + [c] == "com1" && "lpt" + [c] == "lpt1"; }
    if c == '2' { assert "com" + [c] == "com2" && "lpt" + [c] == "lpt2"; }
    if c == '3' { assert "com" + [c] == "com3" && "lpt" + [c] == "lpt3"; }
    if c == '4' { assert "com" + [c] == "com4" && "lpt" + [c] == "lpt4"; }
    if c == '5' { assert "com" + [c] == "com5" && "lpt" + [c] == "lpt5"; }
    if c == '6' { assert "com" + [c] == "com6" && "lpt" + [c] == "lpt6"; }
    if c == '7' { assert "com" + [c] == "com7" && "lpt" + [c] == "lpt7"; }
    if c == '8' { assert "com" + [c] == "com8" && "lpt" + [c] == "lpt8"; }
    if c == '9' { assert "com" + [c] == "com9" && "lpt" + [c] == "lpt9"; }
  }

  lemma ReservedIsDevice(u: Unicode, part: string)
    requires u.casefold(part)[..Find(u.casefold(part), '.')] in RESERVED
    ensures IsDevice(u, part)
  {
    var stem := u.casefold(part)[..Find(u.casefold(part), '.')];
    if |stem| == 4 {
      assert stem[..3] == [stem[0], stem[1], stem[2]];
      assert "com" == ['c', 'o', 'm'] && "lpt" == ['l', 'p', 't'];
    }
  }

  lemma {:induction false} StorableIsValid(u: Unicode, c: char)
    requires StorableChar(u, c)
    ensures !InvalidChar(c) && !u.isFormat(c)
  {
  }

  /** Exactly the paths that are safe on every system are taken; no other path is turned away. */
  lemma NormalizedExactly(u: Unicode, raw: string)
    ensures NormalizePath(u, raw).Some? <==>
      var path := Strip(u, raw); var parts := Segments(path);
      && path != "" && path[0] != '/' && |parts| <= 8
      && (forall i :: 0 <= i < |path| ==> StorableChar(u, path[i]))
      && forall i :: 0 <= i < |parts| ==> HarmlessSegment(u, parts[i]) && parts[i] != "." && parts[i] != ".."
  {
    var path := Strip(u, raw);
    var parts := Segments(path);
    if Acceptable(u, path) {
      AcceptableIsHarmless(u, path);
      forall i | 0 <= i < |parts| ensures parts[i] != "." && parts[i] != ".." { SafeSegmentIsHarmless(u, parts[i]); }
    }
    if forall i :: 0 <= i < |path| ==> StorableChar(u, path[i]) {
      forall i | 0 <= i < |path| ensures !InvalidChar(path[i]) && !u.isFormat(path[i]) && path[i] != '\\' {
        StorableIsValid(u, path[i]);
      }
    }
    forall i | 0 <= i < |parts| && HarmlessSegment(u, parts[i]) && parts[i] != "." && parts[i] != ".."
      ensures !UnsafeSegment(u, parts[i])
    {
      HarmlessIsSafe(u, parts[i]);
    }
  }

  lemma HarmlessIsSafe(u: Unicode, part: string)
    requires HarmlessSegment(u, part) && part != "." && part != ".."
    ensures !UnsafeSegment(u, part)
  {
    if u.casefold(part)[..Find(u.casefold(part), '.')] in RESERVED { ReservedIsDevice(u, part); }
    assert WithoutTrailingDots(part) == part;
    if part[|part| - 1] == '.' || part[|part| - 1] == ' ' { TrailingDotsGo(part); }
  }

  lemma {:induction false} TrailingDotsGo(part: string)
    ensures |WithoutTrailingDots(part)| <= |part|
    ensures part != "" && (part[|part| - 1] == '.' || part[|part| - 1] == ' ') ==> |WithoutTrailingDots(part)| < |part|
  {
    if part != "" && (part[|part| - 1] == '.' || part[|part| - 1] == ' ') { TrailingDotsGo(part[..|part| - 1]); }
  }

  /** What an acceptable path is, on every system. */
  lemma AcceptableIsHarmless(u: Unicode, path: string)
    requires Acceptable(u, path)
    ensures Walk([], Segments(path)) == Some(Segments(path)) && 1 <= |Segments(path)| <= 8
    ensures path != "" && path[0] != '/' && Joined(Segments(path)) == path
    ensures forall i :: 0 <= i < |Segments(path)| ==> HarmlessSegment(u, Segments(path)[i])
    ensures forall i :: 0 <= i < |path| ==> StorableChar(u, path[i])
  {
    var parts := Segments(path);
    JoinedSegments(path);
    forall k | 0 <= k < |parts|
      ensures HarmlessSegment(u, parts[k]) && parts[k] != "." && parts[k] != ".."
    {
      SafeSegmentIsHarmless(u, parts[k]);
    }
    PlainSegmentsWalk([], parts);
    assert [] + parts == parts;
    forall k | 0 <= k < |path|
      ensures StorableChar(u, path[k])
    {
      assert path[k] in path;
      ValidCharIsStorable(u, path[k]);
    }
  }

  /** With the real rules, every kept path leads to itself from the project's root and never out of it, at most
      eight segments deep; no segment is renamed, a device or a repository's own directory on any system, and
      every character can be stored on each. */
  lemma KeptPathsAreSafe(u: Unicode, limits: Limits, files: seq<File>, f: File)
    requires f in Sanitized(RulesOf(u), limits, files)
    ensures Walk([], Segments(f.path)) == Some(Segments(f.path)) && 1 <= |Segments(f.path)| <= 8
    ensures f.path != "" && f.path[0] != '/' && Joined(Segments(f.path)) == f.path
    ensures forall i :: 0 <= i < |Segments(f.path)| ==> HarmlessSegment(u, Segments(f.path)[i])
    ensures forall i :: 0 <= i < |f.path| ==> StorableChar(u, f.path[i])
  {
    RulesOfAreStable(u);
    SanitizedIsClean(RulesOf(u), limits, files);
    var i :| 0 <= i < |Sanitized(RulesOf(u), limits, files)| && Sanitized(RulesOf(u), limits, files)[i] == f;
    assert Fine(RulesOf(u), limits, f);
    NormalizeIdempotent(u, f.path);
    AcceptableIsHarmless(u, f.path);
  }
}
