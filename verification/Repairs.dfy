/** What the review's repair rounds ask for and what they may change: the code generator's requests, the
    files a round takes from its answer, and the traces of whole loops. Models parts of `Reviewer`,
    `_owned_by` and `_files_for_test_repair` of src/autoswe/pipeline/agents.py. */
module Repairs {
  import opened Options
  import opened Paths
  import opened Ownership
  import opened Pipeline
  import opened Turns

  // ------------------------------------------------------------------ the model and the sandbox

  datatype Request =
    | Repair(sent: map<string, File>)
    | Judge(files: map<string, File>, report: Report, tests: Option<TestRun>)

  datatype Reply = Reply(files: seq<File>, score: int)

  /** A language model: what it answers may depend on everything it was asked, and it may fail. */
  class Model {
    const reply: seq<Request> -> Option<Reply>
    var asked: seq<Request>

    constructor (reply: seq<Request> -> Option<Reply>)
      ensures this.reply == reply && asked == []
    {
      this.reply, asked := reply, [];
    }

    method Generate(request: Request) returns (answer: Option<Reply>)
      modifies this
      ensures asked == old(asked) + [request] && answer == reply(asked)
    {
      asked := asked + [request];
      answer := reply(asked);
    }
  }

  /** `run` answers the n-th run on the given files; `sources` lists the source files, sorted. */
  datatype Sandbox = Sandbox(run: (nat, map<string, File>) -> TestRun, sources: set<string> -> seq<string>)

  const MAX_TEST_REPAIR_FILES := 12

  // ------------------------------------------------------------------ what a repair may change

  /** From `before` to `after` only files under `paths` were changed or added, and none was removed. */
  ghost predicate OnlyChanged(before: map<string, File>, after: map<string, File>, paths: set<string>) {
    && paths <= after.Keys && before.Keys <= after.Keys
    && forall p :: p in after && p !in paths ==> p in before && after[p] == before[p]
  }

  function Chosen(files: map<string, File>, paths: set<string>): map<string, File> {
    map p | p in paths && p in files :: files[p]
  }

  /** Storing the reported paths over the stored files makes them equal to the files in memory. */
  lemma UpsertMatchesMemory(before: map<string, File>, after: map<string, File>, paths: set<string>)
    requires OnlyChanged(before, after, paths)
    ensures before + Chosen(after, paths) == after
  {
    var stored := before + Chosen(after, paths);
    forall p ensures p in stored <==> p in after {
      assert p in before ==> p in before.Keys && p in after.Keys;
      assert p in paths ==> p in after.Keys;
    }
  }

  lemma ChangesCompose(a: map<string, File>, b: map<string, File>, c: map<string, File>, p: set<string>, q: set<string>)
    requires OnlyChanged(a, b, p) && OnlyChanged(b, c, q)
    ensures OnlyChanged(a, c, p + q)
  {
    assert a.Keys <= b.Keys <= c.Keys;
    assert p <= b.Keys;
  }

  lemma MergeOnlyChanges(rules: Rules, limits: Limits, t: Tree, stage: Stage, keep: string -> bool, files: seq<File>,
                         paths: set<string>)
    requires forall p :: p in Accepted(rules, limits, stage, keep, files) ==> p in paths
    requires paths <= t.files.Keys + Listed(Accepted(rules, limits, stage, keep, files))
    ensures OnlyChanged(t.files, Merged(rules, limits, t, stage, keep, files).files, paths)
  {
    MergeChangesAccepted(rules, t, stage, keep, Sanitized(rules, limits, files));
  }

  lemma MergeOfNothing(rules: Rules, limits: Limits, t: Tree, stage: Stage, keep: string -> bool, files: seq<File>)
    requires Accepted(rules, limits, stage, keep, files) == []
    ensures Merged(rules, limits, t, stage, keep, files) == t
  {
    var t' := Merged(rules, limits, t, stage, keep, files);
    MergeChangesAccepted(rules, t, stage, keep, Sanitized(rules, limits, files));
    assert t'.files == t.files && t'.origin == t.origin;
  }

  function Listed(paths: seq<string>): set<string> {
    set p | p in paths
  }

  // ------------------------------------------------------------------ repairing failing checks

  /** The stored files that a blocking issue names. */
  function Failing(files: map<string, File>, report: Report): set<string> {
    set i | 0 <= i < |report.Issues()| && report.Issues()[i].severity == "error" &&
            report.Issues()[i].file.Some? && report.Issues()[i].file.value in files :: report.Issues()[i].file.value
  }

  /** A blocking issue of the report is about this path. */
  ghost predicate NamedByError(report: Report, path: string) {
    exists i :: 0 <= i < |report.Issues()| &&
      report.Issues()[i].severity == "error" && report.Issues()[i].file == Some(path)
  }

  /** The answered files that differ from what was sent, in their order. */
  function Useful(sent: map<string, File>, answer: seq<File>): (r: seq<File>)
    ensures forall f :: f in r <==> f in answer && f.path in sent && sent[f.path].content != f.content
  {
    if answer == [] then []
    else
      var f := answer[0];
      (if f.path in sent && sent[f.path].content != f.content then [f] else []) + Useful(sent, answer[1..])
  }

  /** A file within the limits for one. */
  predicate Fits(rules: Rules, limits: Limits, f: File) {
    && limits.maxFiles >= 1 && rules.bytes(f.content) <= limits.maxFileBytes
    && rules.bytes(f.content) <= limits.maxTotalBytes
  }

  /** Stored files with the changed ones over them, one after the other, but for those that are too large. */
  function Repaired(rules: Rules, limits: Limits, files: map<string, File>, changed: seq<File>): map<string, File> {
    if changed == [] then files
    else
      var before, f := Repaired(rules, limits, files, changed[..|changed| - 1]), changed[|changed| - 1];
      if Fits(rules, limits, f) then before[f.path := f] else before
  }

  /** The last of the changed files for this path that fits. */
  ghost predicate LastFitting(rules: Rules, limits: Limits, changed: seq<File>, i: nat, p: string) {
    && i < |changed| && changed[i].path == p && Fits(rules, limits, changed[i])
    && forall j :: i < j < |changed| && changed[j].path == p ==> !Fits(rules, limits, changed[j])
  }

  lemma LastFittingOfMore(rules: Rules, limits: Limits, init: seq<File>, f: File, i: nat, p: string)
    requires f.path != p || !Fits(rules, limits, f)
    ensures LastFitting(rules, limits, init + [f], i, p) <==> LastFitting(rules, limits, init, i, p)
  {
    var all := init + [f];
    assert all[|init|] == f && forall j :: 0 <= j < |init| ==> all[j] == init[j];
  }

  lemma LastFittingIsNew(rules: Rules, limits: Limits, init: seq<File>, f: File, p: string)
    requires f.path == p && Fits(rules, limits, f)
    ensures LastFitting(rules, limits, init + [f], |init|, p)
    ensures forall i: nat :: LastFitting(rules, limits, init + [f], i, p) ==> i == |init|
  {
    assert (init + [f])[|init|] == f;
  }

  lemma RepairedMore(rules: Rules, limits: Limits, files: map<string, File>, init: seq<File>, f: File)
    ensures var before := Repaired(rules, limits, files, init);
      Repaired(rules, limits, files, init + [f]) == if Fits(rules, limits, f) then before[f.path := f] else before
  {
    assert (init + [f])[..|init|] == init;
  }

  /** A path ends up with the last fitting file that was answered for it, or as it was. */
  lemma {:induction false} LastFittingFileStays(rules: Rules, limits: Limits, files: map<string, File>,
                                                changed: seq<File>, p: string)
    ensures var after := Repaired(rules, limits, files, changed);
      && (forall i: nat :: LastFitting(rules, limits, changed, i, p) ==> p in after && after[p] == changed[i])
      && ((forall i: nat :: !LastFitting(rules, limits, changed, i, p)) ==>
            (p in after <==> p in files) && (p in files ==> after[p] == files[p]))
  {
    if changed != [] {
      var init, f := changed[..|changed| - 1], changed[|changed| - 1];
      assert changed == init + [f];
      RepairedMore(rules, limits, files, init, f);
      if f.path == p && Fits(rules, limits, f) {
        LastFittingIsNew(rules, limits, init, f, p);
      } else {
        LastFittingFileStays(rules, limits, files, init, p);
        forall i: nat ensures LastFitting(rules, limits, changed, i, p) <==> LastFitting(rules, limits, init, i, p) {
          LastFittingOfMore(rules, limits, init, f, i, p);
        }
      }
    }
  }

  function PathsOf(files: seq<File>): set<string> {
    set i | 0 <= i < |files| :: files[i].path
  }

  /** Only stored files under the changed paths change. */
  lemma {:induction false} RepairedOnly(rules: Rules, limits: Limits, files: map<string, File>, changed: seq<File>)
    requires forall f :: f in changed ==> f.path in files
    ensures var after := Repaired(rules, limits, files, changed);
      after.Keys == files.Keys && OnlyChanged(files, after, PathsOf(changed))
  {
    if changed != [] {
      var init, f := changed[..|changed| - 1], changed[|changed| - 1];
      RepairedOnly(rules, limits, files, init);
      assert f in changed && changed == init + [f];
      PathsOfMore(init, f);
    }
  }

  lemma PathsOfMore(files: seq<File>, f: File)
    ensures PathsOf(files + [f]) == PathsOf(files) + {f.path}
  {
    var all := files + [f];
    forall p | p in PathsOf(files) ensures p in PathsOf(all) {
      var i :| 0 <= i < |files| && files[i].path == p;
      assert all[i].path == p;
    }
    assert all[|files|].path == f.path;
  }

  const ANYTHING := (path: string) => true

  /** A repair of one stored file is merged under the stage the file came from, and nowhere else. */
  lemma RepairStaysHome(rules: Rules, limits: Limits, t: Tree, file: File, keep: string -> bool)
    requires Stable(rules) && Owned(rules, t) && file.path in t.files
    ensures var stage := t.origin[file.path];
      && Owned(rules, Merged(rules, limits, t, stage, keep, [file]))
      && OnlyChanged(t.files, Merged(rules, limits, t, stage, keep, [file]).files, {file.path})
  {
    var stage := t.origin[file.path];
    SanitizedComesFromInput(rules, limits, [file]);
    forall f | f in Sanitized(rules, limits, [file]) ensures f.path == file.path {
      var g :| g in [file] && rules.normalize(g.path) == Some(f.path) && f == g.(path := f.path);
    }
    MergeKeepsOwnership(rules, limits, t, stage, keep, [file]);
    MergeChangesAccepted(rules, t, stage, keep, Sanitized(rules, limits, [file]));
    forall p | p in Accepted(rules, limits, stage, keep, [file]) ensures p == file.path {
      var f := Merged(rules, limits, t, stage, keep, [file]).files[p];
      assert f in Sanitized(rules, limits, [file]);
    }
    MergeOnlyChanges(rules, limits, t, stage, keep, [file], {file.path});
  }

  /** A single file is kept if it fits, and else reported. */
  lemma OneFile(rules: Rules, limits: Limits, f: File)
    requires rules.normalize(f.path) == Some(f.path)
    ensures Sanitized(rules, limits, [f]) == if Fits(rules, limits, f) then [f] else []
    ensures var issues := Taken(rules, limits, [f]).issues;
      if Fits(rules, limits, f) then issues == [] else |issues| == 1 && issues[0].severity == "error"
  {
    var none: seq<File> := [];
    assert [f][..0] == none && f.(path := f.path) == f;
    assert Taken(rules, limits, none) == Progress(none, 0, [], false);
    assert PlaceOf(rules, none, rules.key(f.path)) == 0 && Put(none, 0, f) == [f];
  }

  lemma MergeOfOne(rules: Rules, t: Tree, stage: Stage, f: File)
    requires Accepts(rules, stage, ANYTHING, f.path)
    ensures MergedClean(rules, t, stage, ANYTHING, [f]) == WithFile(t, stage, f)
  {
    assert MergedClean(rules, t, stage, ANYTHING, [f][..0]) == t;
  }

  /** It takes the place of the stored file, unless it is too large. */
  lemma OneRepair(rules: Rules, limits: Limits, t: Tree, f: File)
    requires Stable(rules) && Owned(rules, t) && f.path in t.files
    ensures f.path in t.origin
    ensures Merged(rules, limits, t, t.origin[f.path], ANYTHING, [f])
      == if Fits(rules, limits, f) then Tree(t.files[f.path := f], t.origin) else t
  {
    assert f.path in t.origin.Keys;
    var stage := t.origin[f.path];
    OneFile(rules, limits, f);
    if Fits(rules, limits, f) {
      MergeOfOne(rules, t, stage, f);
      assert t.origin[f.path := stage] == t.origin;
    }
  }

  /** What sanitising the changed files one by one adds to what was rejected. */
  function RejectedWith(rules: Rules, limits: Limits, rejected: seq<Issue>, changed: seq<File>): seq<Issue> {
    if changed == [] then rejected
    else
      RejectedWith(rules, limits, rejected, changed[..|changed| - 1])
        + Taken(rules, limits, [changed[|changed| - 1]]).issues
  }

  ghost function Unfit(rules: Rules, limits: Limits, files: seq<File>): nat {
    if files == [] then 0
    else
      Unfit(rules, limits, files[..|files| - 1]) + if Fits(rules, limits, files[|files| - 1]) then 0 else 1
  }

  /** That is one error for every file that does not fit. */
  lemma {:induction false} EveryUnfitIsRejected(rules: Rules, limits: Limits, rejected: seq<Issue>, changed: seq<File>)
    requires forall f :: f in changed ==> rules.normalize(f.path) == Some(f.path)
    ensures var after := RejectedWith(rules, limits, rejected, changed);
      && rejected <= after && |after| == |rejected| + Unfit(rules, limits, changed)
      && forall k :: |rejected| <= k < |after| ==> after[k].severity == "error"
  {
    if changed != [] {
      var init, f := changed[..|changed| - 1], changed[|changed| - 1];
      assert f in changed && forall g :: g in init ==> g in changed;
      EveryUnfitIsRejected(rules, limits, rejected, init);
      OneFile(rules, limits, f);
    }
  }

  /** One more of the changed files, in memory, among the rejections and among the paths. */
  lemma NextRepair(rules: Rules, limits: Limits, t: Tree, changed: seq<File>, i: nat, files: map<string, File>,
                   rejected: seq<Issue>)
    requires Stable(rules) && Owned(rules, t) && i < |changed| && changed[i].path in t.files
    ensures changed[i].path in t.origin
    ensures var t' := Merged(rules, limits, t, t.origin[changed[i].path], ANYTHING, [changed[i]]);
      && Owned(rules, t') && t'.origin == t.origin && t'.files.Keys == t.files.Keys
      && (t.files == Repaired(rules, limits, files, changed[..i]) ==>
            t'.files == Repaired(rules, limits, files, changed[..i + 1]))
    ensures RejectedWith(rules, limits, rejected, changed[..i + 1])
      == RejectedWith(rules, limits, rejected, changed[..i]) + Taken(rules, limits, [changed[i]]).issues
    ensures PathsOf(changed[..i + 1]) == PathsOf(changed[..i]) + {changed[i].path}
  {
    var f := changed[i];
    RepairStaysHome(rules, limits, t, f, ANYTHING);
    OneRepair(rules, limits, t, f);
    assert changed[..i + 1][..i] == changed[..i] && changed[..i + 1] == changed[..i] + [f];
    PathsOfMore(changed[..i], f);
  }

  /** What the loop depends on and does not change. */
  datatype Setting = Setting(rules: Rules, limits: Limits, checks: (map<string, File>, Option<Document>) -> seq<Issue>,
                             architecture: Option<Document>, reply: seq<Request> -> Option<Reply>)

  /** One round: what was found, what was sent, what came back, and the files afterwards. */
  datatype CheckRound = CheckRound(files: map<string, File>, report: Report, sent: map<string, File>,
                                   answer: Option<Reply>, after: map<string, File>, repaired: set<string>)

  datatype CheckState = CheckState(files: map<string, File>, rejected: seq<Issue>, asked: seq<Request>)

  function CheckOnce(c: Setting, s: CheckState): CheckRound {
    var report := Report(s.rejected, c.checks(s.files, c.architecture));
    var sent := Chosen(s.files, Failing(s.files, report));
    var answer := c.reply(s.asked + [Repair(sent)]);
    if answer.None? then CheckRound(s.files, report, sent, answer, s.files, {})
    else
      var changed := Useful(sent, answer.value.files);
      CheckRound(s.files, report, sent, answer, Repaired(c.rules, c.limits, s.files, changed), PathsOf(changed))
  }

  predicate Changes(r: CheckRound) {
    r.repaired != {}
  }

  /** One turn of the loop, if an error names a stored file. */
  function CheckTurn(c: Setting): CheckState -> Turn<CheckState, CheckRound> {
    (s: CheckState) =>
      var r := CheckOnce(c, s);
      if r.sent == map[] then Stop
      else Go(r, CheckState(r.after, RejectedIn(c, s.rejected, r), s.asked + [Repair(r.sent)]), Changes(r))
  }

  /** Names a state whose turn is asked for. */
  predicate Turning(s: CheckState) { true }

  /** `turn` is the loop's turn; what that is is only looked up for states that are `Turning`. */
  ghost predicate IsCheckTurn(turn: CheckState -> Turn<CheckState, CheckRound>, c: Setting) {
    forall s {:trigger Turning(s)} :: Turning(s) ==> turn(s) == CheckTurn(c)(s)
  }

  function RejectedIn(c: Setting, rejected: seq<Issue>, r: CheckRound): seq<Issue> {
    if r.answer.None? then rejected
    else RejectedWith(c.rules, c.limits, rejected, Useful(r.sent, r.answer.value.files))
  }

  function PathsRepaired(rounds: seq<CheckRound>): set<string> {
    if rounds == [] then {}
    else PathsRepaired(rounds[..|rounds| - 1]) + rounds[|rounds| - 1].repaired
  }

  lemma NobodyFails(files: map<string, File>, report: Report)
    requires Failing(files, report) == {}
    ensures forall p :: p in files ==> !NamedByError(report, p)
  {
    SentIsNamed(files, report);
    assert forall p :: p !in Chosen(files, {});
  }

  lemma SentIsNamed(files: map<string, File>, report: Report)
    ensures var sent := Chosen(files, Failing(files, report));
      && (forall p :: p in sent <==> p in files && NamedByError(report, p))
      && (forall p :: p in sent ==> sent[p] == files[p])
      && (Failing(files, report) != {} ==> sent != map[])
  {
    var failing := Failing(files, report);
    forall p ensures p in failing <==> p in files && NamedByError(report, p) {
      if p in files && NamedByError(report, p) {
        var i :| 0 <= i < |report.Issues()| && report.Issues()[i].severity == "error" &&
          report.Issues()[i].file == Some(p);
      }
    }
    if failing != {} {
      var p: string :| p in failing;
      assert p in Chosen(files, failing);
    }
  }

  /** Sent are exactly the stored files that an error of the report names; taken is exactly what differs from
      them in the answer. */
  ghost predicate CheckRoundOk(c: Setting, r: CheckRound) {
    && r.report.checks == c.checks(r.files, c.architecture)
    && r.sent != map[] && (forall p :: p in r.sent <==> p in r.files && NamedByError(r.report, p))
    && (forall p :: p in r.sent ==> r.sent[p] == r.files[p])
    && (r.answer.None? ==> r.after == r.files && r.repaired == {})
    && (r.answer.Some? ==>
          var changed := Useful(r.sent, r.answer.value.files);
          && r.after == Repaired(c.rules, c.limits, r.files, changed)
          && forall p :: p in r.repaired <==> exists f :: f in changed && f.path == p)
  }

  /** What was rejected before, and with an answer what of it does not fit, as `EveryUnfitIsRejected` says. */
  ghost function Rejections(c: Setting, rejected: seq<Issue>, r: CheckRound): seq<Issue> {
    match r.answer
    case None => rejected
    case Some(reply) => RejectedWith(c.rules, c.limits, rejected, Useful(r.sent, reply.files))
  }

  lemma PathsOfAre(files: seq<File>)
    ensures forall p :: p in PathsOf(files) <==> exists f :: f in files && f.path == p
    ensures PathsOf(files) == {} <==> files == []
  {
    forall p | exists f :: f in files && f.path == p ensures p in PathsOf(files) {
      var f :| f in files && f.path == p;
      var i :| 0 <= i < |files| && files[i] == f;
    }
    if files != [] { assert files[0].path in PathsOf(files); }
  }

  lemma NothingSent(turn: CheckState -> Turn<CheckState, CheckRound>, c: Setting, s: CheckState)
    requires IsCheckTurn(turn, c)
    requires Failing(s.files, Report(s.rejected, c.checks(s.files, c.architecture))) == {}
    ensures turn(s).Stop?
  {
    assert Turning(s) && Chosen(s.files, {}) == map[];
  }

  lemma SomethingSent(turn: CheckState -> Turn<CheckState, CheckRound>, c: Setting, s: CheckState)
    requires IsCheckTurn(turn, c)
    requires Failing(s.files, Report(s.rejected, c.checks(s.files, c.architecture))) != {}
    ensures var r := CheckOnce(c, s);
      turn(s) == Go(r, CheckState(r.after, RejectedIn(c, s.rejected, r), s.asked + [Repair(r.sent)]), Changes(r))
  {
    assert Turning(s);
    SentIsNamed(s.files, Report(s.rejected, c.checks(s.files, c.architecture)));
  }

  lemma RepairedOnceMore(rounds: seq<CheckRound>, r: CheckRound)
    ensures PathsRepaired(rounds + [r]) == PathsRepaired(rounds) + r.repaired
  {
    assert (rounds + [r])[..|rounds|] == rounds;
  }

  /** The reported paths are those for which some round got a file that differs. */
  lemma {:induction false} PathsRepairedAre(rounds: seq<CheckRound>, p: string)
    ensures p in PathsRepaired(rounds) <==> exists k :: 0 <= k < |rounds| && p in rounds[k].repaired
  {
    if rounds != [] {
      var init := rounds[..|rounds| - 1];
      PathsRepairedAre(init, p);
      if p in PathsRepaired(init) {
        var k :| 0 <= k < |init| && p in init[k].repaired;
        assert p in rounds[k].repaired;
      }
      if k :| 0 <= k < |init| && p in rounds[k].repaired {
        assert init[k] == rounds[k];
      }
    }
  }

  /** Only the reported paths changed so far, and none was added or removed. */
  ghost predicate CheckConfined(start: CheckState, now: CheckState, rounds: seq<CheckRound>) {
    now.files.Keys == start.files.Keys && OnlyChanged(start.files, now.files, PathsRepaired(rounds))
  }

  lemma CheckTurnConfined(turn: CheckState -> Turn<CheckState, CheckRound>, c: Setting, start: CheckState,
                          now: CheckState, rounds: seq<CheckRound>)
    requires IsCheckTurn(turn, c) && CheckConfined(start, now, rounds) && turn(now).Go?
    ensures CheckConfined(start, turn(now).after, rounds + [turn(now).round])
  {
    var r := turn(now).round;
    CheckTurnIs(turn, c, now);
    RoundConfined(c, r);
    RepairedOnceMore(rounds, r);
    ChangesCompose(start.files, r.files, r.after, PathsRepaired(rounds), r.repaired);
  }

  lemma CheckRoundsConfined(turn: CheckState -> Turn<CheckState, CheckRound>, c: Setting, s: CheckState, left: nat)
    requires IsCheckTurn(turn, c)
    ensures CheckConfined(s, EndState(turn, s, left), Rounds(turn, s, left))
  {
    var kept := (now: CheckState, rounds: seq<CheckRound>) => CheckConfined(s, now, rounds);
    forall now, rounds, r, after, more | kept(now, rounds) && turn(now) == Go(r, after, more)
      ensures kept(after, rounds + [r])
    {
      CheckTurnConfined(turn, c, s, now, rounds);
    }
    Kept(turn, s, left, kept);
  }

  lemma RoundConfined(c: Setting, r: CheckRound)
    requires CheckRoundOk(c, r)
    ensures r.after.Keys == r.files.Keys && OnlyChanged(r.files, r.after, r.repaired)
  {
    if r.answer.Some? {
      var changed := Useful(r.sent, r.answer.value.files);
      PathsOfAre(changed);
      assert forall f :: f in changed ==> f.path in r.files;
      assert r.repaired == PathsOf(changed);
      RepairedOnly(c.rules, c.limits, r.files, changed);
    }
  }

  /** A turn is about exactly the stored files that errors name at that time, asks for just those, has the
      model's answer to all that was asked so far, and takes what differs; there is another exactly if that
      changed something, and none at all exactly if no error names a stored file. */
  lemma CheckTurnIs(turn: CheckState -> Turn<CheckState, CheckRound>, c: Setting, s: CheckState)
    requires IsCheckTurn(turn, c)
    ensures match turn(s)
      case Go(r, after, more) =>
        && CheckRoundOk(c, r) && r.files == s.files && r.report.rejected == s.rejected && after.files == r.after
        && after.asked == s.asked + [Repair(r.sent)] && r.answer == c.reply(after.asked) && (more <==> Changes(r))
      case Stop =>
        forall p :: p in s.files ==> !NamedByError(Report(s.rejected, c.checks(s.files, c.architecture)), p)
  {
    var report := Report(s.rejected, c.checks(s.files, c.architecture));
    SentIsNamed(s.files, report);
    assert Turning(s);
    if turn(s).Go? {
      var r := turn(s).round;
      if r.answer.Some? { PathsOfAre(Useful(r.sent, r.answer.value.files)); }
    } else {
      NobodyFails(s.files, report);
    }
  }

  /** So is every round of the loop, from the state in which the one before left it. */
  lemma CheckRoundsAre(turn: CheckState -> Turn<CheckState, CheckRound>, c: Setting, s: CheckState, left: nat, k: nat)
    requires IsCheckTurn(turn, c) && k < |Rounds(turn, s, left)|
    ensures var rounds, states := Rounds(turn, s, left), States(turn, s, left);
      && |states| == |rounds| + 1 && |rounds| <= left
      && CheckRoundOk(c, rounds[k]) && rounds[k].files == states[k].files && rounds[k].after == states[k + 1].files
      && rounds[k].report.rejected == states[k].rejected
      && states[k + 1].asked == states[k].asked + [Repair(rounds[k].sent)]
      && rounds[k].answer == c.reply(states[k + 1].asked)
      && (k < |rounds| - 1 ==> Changes(rounds[k]))
  {
    RoundsAreTurns(turn, s, left, k);
    CheckTurnIs(turn, c, States(turn, s, left)[k]);
  }

  /** And what each rejects. */
  lemma CheckRoundsReject(turn: CheckState -> Turn<CheckState, CheckRound>, c: Setting, s: CheckState, left: nat,
                          k: nat)
    requires IsCheckTurn(turn, c) && k < |Rounds(turn, s, left)|
    ensures var rounds, states := Rounds(turn, s, left), States(turn, s, left);
      && |states| == |rounds| + 1
      && states[k + 1].rejected == Rejections(c, states[k].rejected, rounds[k])
  {
    RoundsAreTurns(turn, s, left, k);
    assert Turning(States(turn, s, left)[k]);
  }

  /** If the last request failed, it is the last thing that was asked. */
  lemma LastCheckFailed(turn: CheckState -> Turn<CheckState, CheckRound>, c: Setting, s: CheckState, left: nat)
    requires IsCheckTurn(turn, c)
    requires var rounds := Rounds(turn, s, left); rounds != [] && rounds[|rounds| - 1].answer.None?
    ensures c.reply(EndState(turn, s, left).asked).None?
  {
    CheckRoundsAre(turn, c, s, left, |Rounds(turn, s, left)| - 1);
  }

  /** The loop ends when the rounds are used up, when no error names a stored file any more, or with a round
      that changed nothing: a request that failed, or an answer like what was sent. */
  lemma CheckRoundsEnd(turn: CheckState -> Turn<CheckState, CheckRound>, c: Setting, s: CheckState, left: nat)
    requires IsCheckTurn(turn, c)
    ensures var rounds, end := Rounds(turn, s, left), EndState(turn, s, left);
      || |rounds| == left
      || (rounds != [] && !Changes(rounds[|rounds| - 1]))
      || forall p :: p in end.files ==>
          !NamedByError(Report(end.rejected, c.checks(end.files, c.architecture)), p)
  {
    var rounds, states := Rounds(turn, s, left), States(turn, s, left);
    RoundsEnd(turn, s, left);
    if rounds != [] {
      RoundsAreTurns(turn, s, left, |rounds| - 1);
      CheckTurnIs(turn, c, states[|rounds| - 1]);
    }
    CheckTurnIs(turn, c, states[|rounds|]);
  }

  // ------------------------------------------------------------------ repairing failing tests

  /** The distinct candidates that are stored and not delivery files, in order. */
  function Picked(rules: Rules, present: set<string>, candidates: seq<string>): seq<string> {
    if candidates == [] then []
    else
      var before := Picked(rules, present, candidates[..|candidates| - 1]);
      var path := candidates[|candidates| - 1];
      if path in present && path !in before && !IsDevopsPath(rules, path) then before + [path] else before
  }

  /** Nothing eligible is passed over, nothing is picked twice, and earlier candidates come first. */
  lemma {:induction false} PickedIsExact(rules: Rules, present: set<string>, candidates: seq<string>, i: nat)
    requires i <= |candidates|
    ensures var picked := Picked(rules, present, candidates);
      && (forall p :: p in picked <==> p in candidates && p in present && !IsDevopsPath(rules, p))
      && (forall j, k :: 0 <= j < k < |picked| ==> picked[j] != picked[k])
      && Picked(rules, present, candidates[..i]) <= picked
    decreases |candidates|
  {
    if candidates != [] {
      var init := candidates[..|candidates| - 1];
      assert candidates == init + [candidates[|candidates| - 1]];
      PickedIsExact(rules, present, init, if i < |candidates| then i else 0);
      if i < |candidates| {
        assert init[..i] == candidates[..i];
      } else {
        assert candidates[..i] == candidates;
      }
    } else {
      assert candidates[..i] == candidates;
    }
  }

  function FirstPicked(rules: Rules, present: set<string>, candidates: seq<string>): set<string> {
    var picked := Picked(rules, present, candidates);
    Listed(picked[..if |picked| < MAX_TEST_REPAIR_FILES then |picked| else MAX_TEST_REPAIR_FILES])
  }

  /** What is sent: everything eligible if that is twelve files at most; else twelve of them, and an eligible file is
      left out only if twelve are mentioned before it. */
  lemma SentAreTheFirst(rules: Rules, present: set<string>, candidates: seq<string>)
    ensures var sent := FirstPicked(rules, present, candidates); var picked := Picked(rules, present, candidates);
      && (forall p :: p in sent ==> p in candidates && p in present && !IsDevopsPath(rules, p))
      && |sent| == (if |picked| > 12 then 12 else |picked|)
      && forall j, k :: 0 <= j < k < |picked| && picked[k] in sent ==> picked[j] in sent
  {
    var picked := Picked(rules, present, candidates);
    PickedIsExact(rules, present, candidates, 0);
    ListedDistinct(picked[..if |picked| > 12 then 12 else |picked|]);
  }

  lemma {:induction false} ListedDistinct(paths: seq<string>)
    requires forall j, k :: 0 <= j < k < |paths| ==> paths[j] != paths[k]
    ensures |Listed(paths)| == |paths|
  {
    if paths != [] {
      var init, last := paths[..|paths| - 1], paths[|paths| - 1];
      ListedDistinct(init);
      assert paths == init + [last];
      assert Listed(paths) == Listed(init) + {last} && last !in Listed(init);
    } else {
      assert Listed(paths) == {};
    }
  }

  function OwnedBy(rules: Rules, allowed: set<string>): string -> bool {
    path => path in allowed && !IsDevopsPath(rules, path)
  }

  /** A repair may change the files that were sent, and add new ones. */
  function Allowed(files: map<string, File>, sent: set<string>, changed: seq<File>): (allowed: set<string>)
    ensures forall p :: p in allowed && p in files ==> p in sent
  {
    set i | 0 <= i < |changed| && (changed[i].path in sent || changed[i].path !in files) :: changed[i].path
  }

  /** Every path belongs to the code generator. */
  ghost predicate AllSource(rules: Rules, paths: set<string>) {
    forall p :: p in paths ==> OwnerOf(rules, p) == Implement
  }

  /** A test repair never changes a platform or delivery file, nor a file it was not sent. */
  lemma TestRepairIsConfined(rules: Rules, limits: Limits, t: Tree, allowed: set<string>, files: seq<File>)
    requires Stable(rules) && Owned(rules, t)
    ensures var t' := Merged(rules, limits, t, Implement, OwnedBy(rules, allowed), files);
      var accepted := Accepted(rules, limits, Implement, OwnedBy(rules, allowed), files);
      && Owned(rules, t') && OnlyChanged(t.files, t'.files, Listed(accepted)) && Listed(accepted) <= allowed
      && AllSource(rules, Listed(accepted)) && (accepted == [] ==> t' == t)
  {
    var keep := OwnedBy(rules, allowed);
    MergeChangesAccepted(rules, t, Implement, keep, Sanitized(rules, limits, files));
    MergeKeepsOwnership(rules, limits, t, Implement, keep, files);
    MergeOnlyChanges(rules, limits, t, Implement, keep, files, Listed(Accepted(rules, limits, Implement, keep, files)));
    if Accepted(rules, limits, Implement, keep, files) == [] {
      MergeOfNothing(rules, limits, t, Implement, keep, files);
    }
  }

  /** The answered files that are new or differ from the stored ones. */
  function Proposed(files: map<string, File>, answer: seq<File>): (r: seq<File>)
    ensures forall f :: f in r <==> f in answer && (f.path !in files || files[f.path].content != f.content)
  {
    if answer == [] then []
    else
      var f := answer[0];
      (if f.path !in files || files[f.path].content != f.content then [f] else []) + Proposed(files, answer[1..])
  }

  function TestKeep(rules: Rules, t: Tree, sent: set<string>, answer: seq<File>): string -> bool {
    OwnedBy(rules, Allowed(t.files, sent, Proposed(t.files, answer)))
  }

  /** The tree after one round's answer, and the paths it took. */
  function TestRepaired(rules: Rules, limits: Limits, t: Tree, sent: set<string>, answer: seq<File>): Tree {
    Merged(rules, limits, t, Implement, TestKeep(rules, t, sent, answer), Proposed(t.files, answer))
  }

  function TestAccepted(rules: Rules, limits: Limits, t: Tree, sent: set<string>, answer: seq<File>): seq<string> {
    Accepted(rules, limits, Implement, TestKeep(rules, t, sent, answer), Proposed(t.files, answer))
  }

  /** Of the proposed files that pass sanitising, a round takes exactly the code generator's: those it was
      sent, and new ones. */
  lemma TestRepairTakes(rules: Rules, limits: Limits, t: Tree, sent: set<string>, answer: seq<File>, f: File)
    requires Stable(rules) && f in Sanitized(rules, limits, Proposed(t.files, answer))
    ensures f.path in TestAccepted(rules, limits, t, sent, answer) <==>
      && OwnerOf(rules, f.path) == Implement && (f.path in sent || f.path !in t.files)
      && exists g :: g in Proposed(t.files, answer) && g.path == f.path
    ensures f.path in TestAccepted(rules, limits, t, sent, answer) ==>
      f.path in TestRepaired(rules, limits, t, sent, answer).files &&
      TestRepaired(rules, limits, t, sent, answer).files[f.path] == f
  {
    var changed, keep := Proposed(t.files, answer), TestKeep(rules, t, sent, answer);
    SanitizedIsClean(rules, limits, changed);
    MergeTakesAccepted(rules, t, Implement, keep, Sanitized(rules, limits, changed), f);
    if exists g :: g in changed && g.path == f.path {
      var g :| g in changed && g.path == f.path;
      var i :| 0 <= i < |changed| && changed[i] == g;
    }
    if f.path in Allowed(t.files, sent, changed) {
      var i :| 0 <= i < |changed| && changed[i].path == f.path;
      assert changed[i] in changed;
    }
  }

  /** One failing run, and the repair it led to. */
  datatype TestRound = TestRound(run: TestRun, tree: Tree, sent: set<string>, answer: Option<Reply>, after: Tree,
                                 taken: set<string>)

  datatype TestState = TestState(tree: Tree, runs: seq<TestRun>, asked: seq<Request>)

  /** The next run, and what is asked and taken if it fails. */
  function TestOnce(c: Setting, sandbox: Sandbox, s: TestState): TestRound {
    var run := sandbox.run(|s.runs|, s.tree.files);
    var sent := FirstPicked(c.rules, s.tree.files.Keys, run.mentions + sandbox.sources(s.tree.files.Keys));
    var answer := c.reply(s.asked + [Repair(Chosen(s.tree.files, sent))]);
    if answer.None? then TestRound(run, s.tree, sent, answer, s.tree, {})
    else
      TestRound(run, s.tree, sent, answer, TestRepaired(c.rules, c.limits, s.tree, sent, answer.value.files),
        Listed(TestAccepted(c.rules, c.limits, s.tree, sent, answer.value.files)))
  }

  predicate NeedsRepair(run: TestRun) {
    !run.passed && run.repairable
  }

  predicate Takes(r: TestRound) {
    r.taken != {}
  }

  /** One turn of the loop, if the run fails and can be repaired. */
  function TestTurn(c: Setting, sandbox: Sandbox): TestState -> Turn<TestState, TestRound> {
    (s: TestState) =>
      var r := TestOnce(c, sandbox, s);
      if !NeedsRepair(r.run) then Stop
      else Go(r, TestState(r.after, s.runs + [r.run], s.asked + [Repair(Chosen(s.tree.files, r.sent))]), Takes(r))
  }

  predicate Running(s: TestState) { true }

  ghost predicate IsTestTurn(turn: TestState -> Turn<TestState, TestRound>, c: Setting, sandbox: Sandbox) {
    forall s {:trigger Running(s)} :: Running(s) ==> turn(s) == TestTurn(c, sandbox)(s)
  }

  function AllTaken(rounds: seq<TestRound>): set<string> {
    if rounds == [] then {} else AllTaken(rounds[..|rounds| - 1]) + rounds[|rounds| - 1].taken
  }

  lemma TakenOnceMore(rounds: seq<TestRound>, r: TestRound)
    ensures AllTaken(rounds + [r]) == AllTaken(rounds) + r.taken
  {
    assert (rounds + [r])[..|rounds|] == rounds;
  }

  /** Only the reported paths changed so far, all of them the code generator's. */
  ghost predicate TestConfined(c: Setting, start: TestState, now: TestState, rounds: seq<TestRound>) {
    && Owned(c.rules, now.tree) && OnlyChanged(start.tree.files, now.tree.files, AllTaken(rounds))
    && AllSource(c.rules, AllTaken(rounds))
  }

  lemma TestTurnConfined(turn: TestState -> Turn<TestState, TestRound>, c: Setting, sandbox: Sandbox,
                         start: TestState, now: TestState, rounds: seq<TestRound>)
    requires IsTestTurn(turn, c, sandbox) && Stable(c.rules) && TestConfined(c, start, now, rounds) && turn(now).Go?
    ensures TestConfined(c, start, turn(now).after, rounds + [turn(now).round])
  {
    var r := turn(now).round;
    TestTurnIs(turn, c, sandbox, now);
    if r.answer.Some? {
      var changed := Proposed(r.tree.files, r.answer.value.files);
      TestRepairIsConfined(c.rules, c.limits, r.tree, Allowed(r.tree.files, r.sent, changed), changed);
    }
    TakenOnceMore(rounds, r);
    ChangesCompose(start.tree.files, r.tree.files, r.after.files, AllTaken(rounds), r.taken);
  }

  lemma TestRoundsConfined(turn: TestState -> Turn<TestState, TestRound>, c: Setting, sandbox: Sandbox, s: TestState,
                           left: nat)
    requires IsTestTurn(turn, c, sandbox) && Stable(c.rules) && Owned(c.rules, s.tree)
    ensures TestConfined(c, s, EndState(turn, s, left), Rounds(turn, s, left))
  {
    var kept := (now: TestState, rounds: seq<TestRound>) => TestConfined(c, s, now, rounds);
    forall now, rounds, r, after, more | kept(now, rounds) && turn(now) == Go(r, after, more)
      ensures kept(after, rounds + [r])
    {
      TestTurnConfined(turn, c, sandbox, s, now, rounds);
    }
    Kept(turn, s, left, kept);
  }

  lemma NoRepairNeeded(turn: TestState -> Turn<TestState, TestRound>, c: Setting, sandbox: Sandbox, s: TestState)
    requires IsTestTurn(turn, c, sandbox) && !NeedsRepair(sandbox.run(|s.runs|, s.tree.files))
    ensures turn(s).Stop?
  {
    assert Running(s);
  }

  /** A round as it was done is the turn of its state. */
  lemma RepairNeeded(turn: TestState -> Turn<TestState, TestRound>, c: Setting, sandbox: Sandbox, s: TestState,
                     r: TestRound)
    requires IsTestTurn(turn, c, sandbox) && NeedsRepair(r.run)
    requires r.run == sandbox.run(|s.runs|, s.tree.files) && r.tree == s.tree
    requires r.sent == FirstPicked(c.rules, r.tree.files.Keys, r.run.mentions + sandbox.sources(r.tree.files.Keys))
    requires r.answer == c.reply(s.asked + [Repair(Chosen(r.tree.files, r.sent))])
    requires r.answer.None? ==> r.after == r.tree && r.taken == {}
    requires r.answer.Some? ==>
      && r.after == TestRepaired(c.rules, c.limits, r.tree, r.sent, r.answer.value.files)
      && r.taken == Listed(TestAccepted(c.rules, c.limits, r.tree, r.sent, r.answer.value.files))
    ensures turn(s) ==
      Go(r, TestState(r.after, s.runs + [r.run], s.asked + [Repair(Chosen(s.tree.files, r.sent))]), Takes(r))
  {
    assert Running(s);
  }

  /** A turn begins with a failing run of the files of that time, asks for the files it is about, has the model's
      answer, and takes of it what `TestRepairTakes` says; there is another exactly if that took something,
      and none at all exactly if the run passes or fails beyond repair. */
  lemma TestTurnIs(turn: TestState -> Turn<TestState, TestRound>, c: Setting, sandbox: Sandbox, s: TestState)
    requires IsTestTurn(turn, c, sandbox)
    ensures var run := sandbox.run(|s.runs|, s.tree.files);
      match turn(s)
      case Stop => run.passed || !run.repairable
      case Go(r, after, more) =>
        && r.run == run && !run.passed && run.repairable && r.tree == s.tree
        && r.sent == FirstPicked(c.rules, s.tree.files.Keys, run.mentions + sandbox.sources(s.tree.files.Keys))
        && after == TestState(r.after, s.runs + [run], s.asked + [Repair(Chosen(s.tree.files, r.sent))])
        && r.answer == c.reply(after.asked) && (more <==> Takes(r))
        && (r.answer.None? ==> r.after == r.tree && r.taken == {})
        && (r.answer.Some? ==>
             && r.after == TestRepaired(c.rules, c.limits, r.tree, r.sent, r.answer.value.files)
             && r.taken == Listed(TestAccepted(c.rules, c.limits, r.tree, r.sent, r.answer.value.files)))
  {
    assert Running(s);
  }

  /** The loop's rounds are such turns, each from the state in which the one before left it. */
  lemma TestRoundsAre(turn: TestState -> Turn<TestState, TestRound>, c: Setting, sandbox: Sandbox, s: TestState,
                      left: nat, k: nat)
    requires IsTestTurn(turn, c, sandbox) && k < |Rounds(turn, s, left)|
    ensures var rounds, states := Rounds(turn, s, left), States(turn, s, left);
      && |states| == |rounds| + 1 && |rounds| <= left
      && turn(states[k]).Go? && rounds[k] == turn(states[k]).round && states[k + 1] == turn(states[k]).after
      && rounds[k].answer == c.reply(states[k + 1].asked) && (k < |rounds| - 1 ==> Takes(rounds[k]))
  {
    RoundsAreTurns(turn, s, left, k);
    TestTurnIs(turn, c, sandbox, States(turn, s, left)[k]);
  }

  lemma LastTestFailed(turn: TestState -> Turn<TestState, TestRound>, c: Setting, sandbox: Sandbox, s: TestState,
                       left: nat)
    requires IsTestTurn(turn, c, sandbox)
    requires var rounds := Rounds(turn, s, left); rounds != [] && rounds[|rounds| - 1].answer.None?
    ensures c.reply(EndState(turn, s, left).asked).None?
  {
    TestRoundsAre(turn, c, sandbox, s, left, |Rounds(turn, s, left)| - 1);
  }

  /** The loop ends with a round whose answer was not taken, or when the files pass, or fail beyond repair, or
      the rounds are used up. */
  lemma TestRoundsEnd(turn: TestState -> Turn<TestState, TestRound>, c: Setting, sandbox: Sandbox, s: TestState,
                      left: nat)
    requires IsTestTurn(turn, c, sandbox)
    ensures var rounds, end := Rounds(turn, s, left), EndState(turn, s, left);
      var next := sandbox.run(|end.runs|, end.tree.files);
      |rounds| == left || (rounds != [] && !Takes(rounds[|rounds| - 1])) || next.passed || !next.repairable
  {
    var rounds, states := Rounds(turn, s, left), States(turn, s, left);
    RoundsEnd(turn, s, left);
    if rounds != [] {
      RoundsAreTurns(turn, s, left, |rounds| - 1);
      TestTurnIs(turn, c, sandbox, states[|rounds| - 1]);
    }
    TestTurnIs(turn, c, sandbox, states[|rounds|]);
  }

  /** After the rounds, the run of what they left; none if the last round's answer was not taken, since the
      files are then those of its own run. */
  ghost predicate RanLast(sandbox: Sandbox, end: TestState, rounds: seq<TestRound>, runs: seq<TestRun>) {
    if rounds != [] && !Takes(rounds[|rounds| - 1]) then runs == end.runs
    else runs == end.runs + [sandbox.run(|end.runs|, end.tree.files)]
  }

  /** The last test run was made on exactly these files. */
  ghost predicate Tested(sandbox: Sandbox, runs: seq<TestRun>, files: map<string, File>) {
    runs != [] && runs[|runs| - 1] == sandbox.run(|runs| - 1, files)
  }

  lemma ListedIsEmpty(paths: seq<string>)
    ensures Listed(paths) == {} <==> paths == []
  {
    if paths != [] { assert paths[0] in Listed(paths); }
  }

  lemma NothingTaken(c: Setting, tree: Tree, sent: set<string>, answer: seq<File>)
    requires TestAccepted(c.rules, c.limits, tree, sent, answer) == []
    ensures TestRepaired(c.rules, c.limits, tree, sent, answer) == tree
  {
    MergeOfNothing(c.rules, c.limits, tree, Implement, TestKeep(c.rules, tree, sent, answer),
      Proposed(tree.files, answer));
  }

  /** A turn that takes nothing leaves the tree it ran. */
  lemma IdleTurn(turn: TestState -> Turn<TestState, TestRound>, c: Setting, sandbox: Sandbox, s: TestState)
    requires IsTestTurn(turn, c, sandbox) && turn(s).Go? && !Takes(turn(s).round)
    ensures turn(s).after.tree == s.tree && turn(s).after.runs == s.runs + [sandbox.run(|s.runs|, s.tree.files)]
  {
    var r := turn(s).round;
    TestTurnIs(turn, c, sandbox, s);
    if r.answer.Some? {
      ListedIsEmpty(TestAccepted(c.rules, c.limits, s.tree, r.sent, r.answer.value.files));
      NothingTaken(c, s.tree, r.sent, r.answer.value.files);
    }
  }

  /** In either case the last run was made on exactly the files that are left. */
  lemma LastRunIsOfTheEnd(turn: TestState -> Turn<TestState, TestRound>, c: Setting, sandbox: Sandbox, s: TestState,
                          left: nat, runs: seq<TestRun>)
    requires IsTestTurn(turn, c, sandbox)
    requires RanLast(sandbox, EndState(turn, s, left), Rounds(turn, s, left), runs)
    ensures Tested(sandbox, runs, EndState(turn, s, left).tree.files)
  {
    var rounds, states := Rounds(turn, s, left), States(turn, s, left);
    if rounds != [] && !Takes(rounds[|rounds| - 1]) {
      RoundsAreTurns(turn, s, left, |rounds| - 1);
      IdleTurn(turn, c, sandbox, states[|rounds| - 1]);
    }
  }
}
