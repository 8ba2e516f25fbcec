/** The state the five agents share during one run of a job.
    Models `PipelineState` of src/autoswe/pipeline/agents.py. */
module Pipeline {
  import opened Options
  import opened Paths
  import opened Ownership

  /** A requirements or architecture document in its stored form. */
  type Document = string

  /** `rejected` is what sanitising refused so far, `checks` what the project checks found. */
  datatype Report = Report(rejected: seq<Issue>, checks: seq<Issue>) {
    function Issues(): seq<Issue> {
      rejected + checks
    }
  }

  /** One run of the test suite; `mentions` lists the paths its failures name, in order. */
  datatype TestRun = TestRun(passed: bool, repairable: bool, mentions: seq<string>)

  class PipelineState {
    const rules: Rules
    const limits: Limits
    const checks: (map<string, File>, Option<Document>) -> seq<Issue>
    const maxRepairRounds: nat
    const maxTestRepairRounds: nat
    var requirements: Option<Document>
    var architecture: Option<Document>
    var files: map<string, File>
    var origin: map<string, Stage>
    var validation: Option<Report>
    var rejected: seq<Issue>
    var testRuns: seq<TestRun>
    var exhausted: bool

    constructor (rules: Rules, limits: Limits, checks: (map<string, File>, Option<Document>) -> seq<Issue>,
                 maxRepairRounds: nat, maxTestRepairRounds: nat)
      ensures this.rules == rules && this.limits == limits && this.checks == checks
      ensures this.maxRepairRounds == maxRepairRounds && this.maxTestRepairRounds == maxTestRepairRounds
      ensures requirements == architecture == None && Now() == Tree(map[], map[])
      ensures validation == None && rejected == [] && testRuns == [] && !exhausted
    {
      this.rules, this.limits, this.checks := rules, limits, checks;
      this.maxRepairRounds, this.maxTestRepairRounds := maxRepairRounds, maxTestRepairRounds;
      requirements, architecture, files, origin := None, None, map[], map[];
      validation, rejected, testRuns, exhausted := None, [], [], false;
    }

    function Now(): Tree
      reads this`files, this`origin
    {
      Tree(files, origin)
    }

    /** The report in the state describes the files in the state. */
    ghost predicate Current()
      reads this`validation, this`files, this`architecture, this`rejected
    {
      validation.Some? && validation.value.checks == checks(files, architecture)
        && validation.value.rejected <= rejected
    }

    method Merge(newFiles: seq<File>, stage: Stage, keep: string -> bool)
      returns (accepted: seq<string>, dropped: seq<string>)
      modifies this`files, this`origin, this`rejected
      ensures Now() == Merged(rules, limits, old(Now()), stage, keep, newFiles)
      ensures accepted == Accepted(rules, limits, stage, keep, newFiles)
      ensures dropped == DroppedPaths(rules, stage, keep, Sanitized(rules, limits, newFiles))
      ensures rejected == old(rejected) + Taken(rules, limits, newFiles).issues
    {
      var clean, issues := SanitizeFiles(rules, limits, newFiles);
      rejected := rejected + issues;
      accepted, dropped := [], [];
      for i := 0 to |clean|
        invariant Now() == MergedClean(rules, old(Now()), stage, keep, clean[..i])
        invariant accepted == AcceptedPaths(rules, stage, keep, clean[..i])
        invariant dropped == DroppedPaths(rules, stage, keep, clean[..i])
        invariant rejected == old(rejected) + issues
      {
        MergeOneMore(rules, old(Now()), stage, keep, clean, i);
        var path := clean[i].path;
        if Accepts(rules, stage, keep, path) {
          files, origin := files[path := clean[i]], origin[path := stage];
          accepted := accepted + [path];
        } else {
          dropped := dropped + [path];
        }
      }
      assert clean[..|clean|] == clean;
    }

    method Validate() returns (report: Report)
      modifies this`validation
      ensures validation == Some(report) && report == Report(rejected, checks(files, architecture))
      ensures Current()
    {
      report := Report(rejected, checks(files, architecture));
      validation := Some(report);
    }
  }
}
