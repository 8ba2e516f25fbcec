/** The review stage: bounded repairs of failing checks and failing tests, then a verdict.
    Models `Reviewer` of src/autoswe/pipeline/agents.py. */
module Review {
  import opened Options
  import opened Paths
  import opened Ownership
  import opened Pipeline
  import opened Turns
  import opened Repairs

  /** What the loops depend on and do not change. */
  function SettingOf(state: PipelineState, llm: Model): Setting
    reads state
  {
    Setting(state.rules, state.limits, state.checks, state.architecture, llm.reply)
  }

  // ------------------------------------------------------------------ repairing failing checks

  function CheckStateOf(state: PipelineState, llm: Model): CheckState
    reads state, llm
  {
    CheckState(state.files, state.rejected, llm.asked)
  }

  method MergeRepairs(state: PipelineState, changed: seq<File>) returns (repaired: set<string>)
    requires Stable(state.rules) && Owned(state.rules, state.Now())
    requires forall f :: f in changed ==> f.path in state.files
    modifies state`files, state`origin, state`rejected
    ensures Owned(state.rules, state.Now()) && state.origin == old(state.origin)
    ensures state.files == Repaired(state.rules, state.limits, old(state.files), changed)
    ensures state.rejected == RejectedWith(state.rules, state.limits, old(state.rejected), changed)
    ensures repaired == PathsOf(changed)
  {
    repaired := {};
    ghost var files := state.files;
    for i := 0 to |changed|
      invariant Owned(state.rules, state.Now()) && state.origin == old(state.origin) && state.files.Keys == files.Keys
      invariant state.files == Repaired(state.rules, state.limits, files, changed[..i])
      invariant state.rejected == RejectedWith(state.rules, state.limits, old(state.rejected), changed[..i])
      invariant repaired == PathsOf(changed[..i])
    {
      var file := changed[i];
      assert file in changed && file.path in state.files.Keys;
      NextRepair(state.rules, state.limits, state.Now(), changed, i, files, old(state.rejected));
      var _, _ := state.Merge([file], state.origin[file.path], ANYTHING);
      repaired := repaired + {file.path};
    }
    assert changed[..|changed|] == changed;
  }

  /** The stored report is about the files and the rejections as they are. */
  ghost predicate Fresh(state: PipelineState)
    reads state
  {
    state.validation == Some(Report(state.rejected, state.checks(state.files, state.architecture)))
  }

  /** One repair of files that an error names. */
  method AskForRepair(state: PipelineState, llm: Model, failing: set<string>, ghost c: Setting, ghost now: CheckState)
    returns (ok: bool, more: set<string>)
    requires Stable(state.rules) && Owned(state.rules, state.Now()) && failing != {}
    requires c == SettingOf(state, llm) && now == CheckStateOf(state, llm)
    requires failing == Failing(now.files, Report(now.rejected, c.checks(now.files, c.architecture)))
    modifies state`files, state`origin, state`rejected, llm
    ensures Owned(state.rules, state.Now()) && state.origin == old(state.origin)
    ensures var r := CheckOnce(c, now);
      && CheckStateOf(state, llm) == CheckState(r.after, RejectedIn(c, now.rejected, r), now.asked + [Repair(r.sent)])
      && more == r.repaired && (ok <==> r.answer.Some?) && (more != {} ==> ok)
      && (more == {} ==> state.files == now.files && state.rejected == now.rejected)
  {
    var sent := Chosen(state.files, failing);
    var answer := llm.Generate(Repair(sent));
    ok, more := answer.Some?, {};
    if ok {
      var changed := Useful(sent, answer.value.files);
      assert forall f :: f in changed ==> f.path in state.files;
      more := MergeRepairs(state, changed);
      PathsOfAre(changed);
    }
  }

  /** One time round the loop: nothing more if no error names a stored file; else one repair, and another check
      if it changed something. */
  method RepairOnce(state: PipelineState, llm: Model, ghost turn: CheckState -> Turn<CheckState, CheckRound>)
    returns (repairing: bool, ok: bool, more: set<string>, ghost r: CheckRound)
    requires Stable(state.rules) && Owned(state.rules, state.Now()) && IsCheckTurn(turn, SettingOf(state, llm))
    requires Fresh(state)
    modifies state`files, state`origin, state`rejected, state`validation, llm
    ensures Owned(state.rules, state.Now()) && state.origin == old(state.origin) && Fresh(state)
    ensures !repairing ==> turn(old(CheckStateOf(state, llm))).Stop?
    ensures repairing ==> turn(old(CheckStateOf(state, llm))) == Go(r, CheckStateOf(state, llm), more != {})
    ensures repairing ==> more == r.repaired && (ok <==> r.answer.Some?) && (more != {} ==> ok)
    ensures !repairing ==> CheckStateOf(state, llm) == old(CheckStateOf(state, llm))
  {
    ghost var c, now := SettingOf(state, llm), CheckStateOf(state, llm);
    var failing := Failing(state.files, state.validation.value);
    repairing, ok, more := failing != {}, true, {};
    r := CheckOnce(c, now);
    if repairing {
      SomethingSent(turn, c, now);
      ok, more := AskForRepair(state, llm, failing, c, now);
      if more != {} {
        var _ := state.Validate();
      }
    } else {
      NothingSent(turn, c, now);
    }
  }

  /** The whole loop does the turns of `CheckTurn`, of which `Repairs.CheckRoundsAre` says what each is and
      `Repairs.CheckRoundsEnd` why there are no more. */
  method RepairChecks(state: PipelineState, llm: Model)
    returns (ok: bool, repaired: set<string>, ghost rounds: seq<CheckRound>)
    requires Stable(state.rules) && Owned(state.rules, state.Now())
    modifies state`files, state`origin, state`rejected, state`validation, llm
    ensures Owned(state.rules, state.Now()) && state.Current() && state.origin == old(state.origin)
    ensures Finished(CheckTurn(SettingOf(state, llm)), old(CheckStateOf(state, llm)), state.maxRepairRounds, rounds,
      CheckStateOf(state, llm))
    ensures OnlyChanged(old(state.files), state.files, repaired) && state.files.Keys == old(state.files).Keys
    ensures repaired == PathsRepaired(rounds)
    ensures ok <==> rounds == [] || rounds[|rounds| - 1].answer.Some?
  {
    ghost var end;
    ok, repaired, rounds, end := CheckLoop(state, llm, CheckTurn(SettingOf(state, llm)));
    FinishedIsAll(CheckTurn(SettingOf(state, llm)), old(CheckStateOf(state, llm)), state.maxRepairRounds, rounds,
      CheckStateOf(state, llm));
    CheckRoundsConfined(CheckTurn(SettingOf(state, llm)), SettingOf(state, llm), old(CheckStateOf(state, llm)),
      state.maxRepairRounds);
  }

  method CheckLoop(state: PipelineState, llm: Model, ghost turn: CheckState -> Turn<CheckState, CheckRound>)
    returns (ok: bool, repaired: set<string>, ghost rounds: seq<CheckRound>, ghost end: CheckState)
    requires Stable(state.rules) && Owned(state.rules, state.Now()) && IsCheckTurn(turn, SettingOf(state, llm))
    modifies state`files, state`origin, state`rejected, state`validation, llm
    ensures Owned(state.rules, state.Now()) && state.Current() && state.origin == old(state.origin)
    ensures Finished(turn, old(CheckStateOf(state, llm)), state.maxRepairRounds, rounds, end)
    ensures end == CheckStateOf(state, llm) && repaired == PathsRepaired(rounds)
    ensures ok <==> rounds == [] || rounds[|rounds| - 1].answer.Some?
  {
    ok, repaired, rounds, end := true, {}, [], CheckStateOf(state, llm);
    ghost var start, all := end, state.maxRepairRounds;
    ghost var left := all;
    var _ := state.Validate();
    for round := 0 to state.maxRepairRounds
      invariant ok && left == all - round && state.origin == old(state.origin)
      invariant Owned(state.rules, state.Now()) && Fresh(state)
      invariant end == CheckStateOf(state, llm) && OnCourse(turn, start, all, rounds, end, left)
      invariant repaired == PathsRepaired(rounds) && (rounds == [] || rounds[|rounds| - 1].answer.Some?)
    {
      var repairing, answered, more, r := RepairOnce(state, llm, turn);
      if !repairing {
        return;
      }
      ghost var after := CheckStateOf(state, llm);
      RepairedOnceMore(rounds, r);
      ok, repaired := answered, repaired + more;
      if more == {} {
        TookLastTurn(turn, start, all, rounds, end, left, r, after);
        rounds, end := rounds + [r], after;
        return;
      }
      TookTurn(turn, start, all, rounds, end, left, r, after);
      rounds, end, left := rounds + [r], after, left - 1;
    }
  }

  // ------------------------------------------------------------------ repairing failing tests

  method FilesForTestRepair(state: PipelineState, sandbox: Sandbox, result: TestRun) returns (sent: set<string>)
    ensures sent == FirstPicked(state.rules, state.files.Keys, result.mentions + sandbox.sources(state.files.Keys))
    ensures sent <= state.files.Keys && forall p :: p in sent ==> !IsDevopsPath(state.rules, p)
  {
    var candidates := result.mentions + sandbox.sources(state.files.Keys);
    var picked: seq<string> := [];
    for i := 0 to |candidates|
      invariant picked == Picked(state.rules, state.files.Keys, candidates[..i])
    {
      assert candidates[..i + 1][..i] == candidates[..i];
      var path := candidates[i];
      if path in state.files && path !in picked && !IsDevopsPath(state.rules, path) {
        picked := picked + [path];
      }
    }
    assert candidates[..|candidates|] == candidates;
    PickedIsExact(state.rules, state.files.Keys, candidates, 0);
    sent := Listed(picked[..if |picked| < MAX_TEST_REPAIR_FILES then |picked| else MAX_TEST_REPAIR_FILES]);
  }

  method MergeTestRepair(state: PipelineState, sent: set<string>, answer: seq<File>) returns (accepted: set<string>)
    requires Stable(state.rules) && Owned(state.rules, state.Now()) && state.Current()
    modifies state`files, state`origin, state`rejected, state`validation
    ensures Owned(state.rules, state.Now()) && state.Current()
    ensures state.Now() == TestRepaired(state.rules, state.limits, old(state.Now()), sent, answer)
    ensures accepted == Listed(TestAccepted(state.rules, state.limits, old(state.Now()), sent, answer))
    ensures OnlyChanged(old(state.files), state.files, accepted) && AllSource(state.rules, accepted)
    ensures accepted * old(state.files).Keys <= sent
    ensures accepted == {} ==> state.Now() == old(state.Now())
  {
    var changed := Proposed(state.files, answer);
    var allowed := Allowed(state.files, sent, changed);
    TestRepairIsConfined(state.rules, state.limits, state.Now(), allowed, changed);
    var paths, _ := state.Merge(changed, Implement, OwnedBy(state.rules, allowed));
    accepted := Listed(paths);
    if paths != [] {
      assert paths[0] in accepted;
      var _ := state.Validate();
    }
  }

  function TestStateOf(state: PipelineState, llm: Model): TestState
    reads state, llm
  {
    TestState(state.Now(), state.testRuns, llm.asked)
  }

  /** One repair round after a failing run, `now` being the state before it: the files the run is about are sent,
      and of the answer the code generator's own are taken. */
  method RepairTests(state: PipelineState, llm: Model, sandbox: Sandbox, result: TestRun, ghost now: TestState,
                     ghost turn: TestState -> Turn<TestState, TestRound>)
    returns (ok: bool, accepted: set<string>, ghost r: TestRound)
    requires Stable(state.rules) && Owned(state.rules, state.Now()) && state.Current()
    requires IsTestTurn(turn, SettingOf(state, llm), sandbox) && NeedsRepair(result)
    requires TestState(state.Now(), state.testRuns, llm.asked) == now.(runs := now.runs + [result])
    requires result == sandbox.run(|now.runs|, now.tree.files)
    modifies state`files, state`origin, state`rejected, state`validation, llm
    ensures Owned(state.rules, state.Now()) && state.Current()
    ensures turn(now) == Go(r, TestStateOf(state, llm), accepted != {})
    ensures accepted == r.taken && (ok <==> r.answer.Some?) && (accepted != {} ==> ok)
    ensures accepted == {} ==> state.Now() == now.tree
  {
    var sent := FilesForTestRepair(state, sandbox, result);
    var answer := llm.Generate(Repair(Chosen(state.files, sent)));
    ok, accepted := answer.Some?, {};
    if ok {
      accepted := MergeTestRepair(state, sent, answer.value.files);
    }
    r := TestRound(result, now.tree, sent, answer, state.Now(), accepted);
    RepairNeeded(turn, SettingOf(state, llm), sandbox, now, r);
  }

  method RunTests(state: PipelineState, sandbox: Sandbox) returns (result: TestRun)
    modifies state`testRuns
    ensures state.testRuns == old(state.testRuns) + [result]
    ensures result == sandbox.run(|old(state.testRuns)|, state.files)
  {
    result := sandbox.run(|state.testRuns|, state.files);
    state.testRuns := state.testRuns + [result];
  }

  /** The whole loop does the turns of `TestTurn`, of which `Repairs.TestRoundsAre` says what each is and
      `Repairs.TestRoundsEnd` why there are no more. */
  method TestAndRepair(state: PipelineState, llm: Model, sandbox: Sandbox)
    returns (ok: bool, repaired: set<string>, ghost rounds: seq<TestRound>, ghost end: TestState)
    requires Stable(state.rules) && Owned(state.rules, state.Now()) && state.Current()
    modifies state`files, state`origin, state`rejected, state`validation, state`testRuns, state`exhausted, llm
    ensures Owned(state.rules, state.Now()) && state.Current()
    ensures Finished(TestTurn(SettingOf(state, llm), sandbox), old(TestStateOf(state, llm)), state.maxTestRepairRounds,
      rounds, end)
    ensures state.Now() == end.tree && llm.asked == end.asked
    ensures RanLast(sandbox, end, rounds, state.testRuns)
    ensures OnlyChanged(old(state.files), state.files, repaired) && AllSource(state.rules, repaired)
    ensures Tested(sandbox, state.testRuns, state.files)
    ensures ok <==> rounds == [] || rounds[|rounds| - 1].answer.Some?
    ensures !old(state.exhausted) ==> (state.exhausted <==>
      UsedUp(sandbox, end, rounds, state.maxTestRepairRounds))
  {
    ghost var start := TestStateOf(state, llm);
    ok, repaired, rounds, end := TestLoop(state, llm, sandbox, TestTurn(SettingOf(state, llm), sandbox));
    FinishedIsAll(TestTurn(SettingOf(state, llm), sandbox), start, state.maxTestRepairRounds, rounds, end);
    TestRoundsConfined(TestTurn(SettingOf(state, llm), sandbox), SettingOf(state, llm), sandbox, start,
      state.maxTestRepairRounds);
    LastRunIsOfTheEnd(TestTurn(SettingOf(state, llm), sandbox), SettingOf(state, llm), sandbox, start,
      state.maxTestRepairRounds, state.testRuns);
  }

  /** All rounds were used and the last run fails still, in a way that could be repaired. */
  ghost predicate UsedUp(sandbox: Sandbox, end: TestState, rounds: seq<TestRound>, all: nat) {
    && |rounds| == all && all > 0 && (rounds != [] ==> Takes(rounds[|rounds| - 1]))
    && NeedsRepair(sandbox.run(|end.runs|, end.tree.files))
  }

  /** One time round the loop: a run, and unless it ends the loop a repair. `last` when the rounds are used up. */
  method TestStep(state: PipelineState, llm: Model, sandbox: Sandbox, last: bool, ghost now: TestState,
                  ghost turn: TestState -> Turn<TestState, TestRound>)
    returns (repairing: bool, ok: bool, accepted: set<string>, ghost r: TestRound)
    requires Stable(state.rules) && Owned(state.rules, state.Now()) && state.Current()
    requires IsTestTurn(turn, SettingOf(state, llm), sandbox) && now == TestStateOf(state, llm)
    modifies state`files, state`origin, state`rejected, state`validation, state`testRuns, state`exhausted, llm
    ensures Owned(state.rules, state.Now()) && state.Current()
    ensures var run := sandbox.run(|now.runs|, now.tree.files);
      && state.testRuns == now.runs + [run] && (repairing <==> NeedsRepair(run) && !last)
      && state.exhausted == if NeedsRepair(run) && last then state.maxTestRepairRounds > 0 else old(state.exhausted)
    ensures !repairing ==> state.Now() == now.tree && llm.asked == now.asked && (turn(now).Stop? || last)
    ensures repairing ==> turn(now) == Go(r, TestStateOf(state, llm), accepted != {})
    ensures repairing ==> accepted == r.taken && (ok <==> r.answer.Some?) && (accepted != {} ==> ok)
  {
    var result := RunTests(state, sandbox);
    repairing, ok, accepted := NeedsRepair(result) && !last, true, {};
    r := TestOnce(SettingOf(state, llm), sandbox, now);
    if !NeedsRepair(result) {
      NoRepairNeeded(turn, SettingOf(state, llm), sandbox, now);
    } else if last {
      state.exhausted := state.maxTestRepairRounds > 0;
    } else {
      ok, accepted, r := RepairTests(state, llm, sandbox, result, now, turn);
    }
  }

  method TestLoop(state: PipelineState, llm: Model, sandbox: Sandbox,
                  ghost turn: TestState -> Turn<TestState, TestRound>)
    returns (ok: bool, repaired: set<string>, ghost rounds: seq<TestRound>, ghost end: TestState)
    requires Stable(state.rules) && Owned(state.rules, state.Now()) && state.Current()
    requires IsTestTurn(turn, SettingOf(state, llm), sandbox)
    modifies state`files, state`origin, state`rejected, state`validation, state`testRuns, state`exhausted, llm
    ensures Owned(state.rules, state.Now()) && state.Current()
    ensures Finished(turn, old(TestStateOf(state, llm)), state.maxTestRepairRounds, rounds, end)
    ensures state.Now() == end.tree && llm.asked == end.asked
    ensures RanLast(sandbox, end, rounds, state.testRuns)
    ensures repaired == AllTaken(rounds)
    ensures ok <==> rounds == [] || rounds[|rounds| - 1].answer.Some?
    ensures !old(state.exhausted) ==> (state.exhausted <==>
      UsedUp(sandbox, end, rounds, state.maxTestRepairRounds))
  {
    ok, repaired, rounds, end := true, {}, [], TestStateOf(state, llm);
    ghost var c, start, all := SettingOf(state, llm), end, state.maxTestRepairRounds;
    ghost var left := all;
    var attempt := 0;
    while true
      invariant ok && 0 <= attempt == |rounds| <= state.maxTestRepairRounds && left == all - attempt
      invariant Owned(state.rules, state.Now()) && state.Current() && state.exhausted == old(state.exhausted)
      invariant end == TestStateOf(state, llm) && OnCourse(turn, start, all, rounds, end, left)
      invariant rounds == [] || (Takes(rounds[|rounds| - 1]) && rounds[|rounds| - 1].answer.Some?)
      invariant repaired == AllTaken(rounds)
      decreases state.maxTestRepairRounds - attempt
    {
      var repairing, answered, accepted, r :=
        TestStep(state, llm, sandbox, attempt == state.maxTestRepairRounds, end, turn);
      if !repairing {
        return;
      }
      TakenOnceMore(rounds, r);
      ok, repaired := answered, repaired + accepted;
      ghost var after := TestStateOf(state, llm);
      if accepted == {} {
        TookLastTurn(turn, start, all, rounds, end, left, r, after);
        rounds, end := rounds + [r], after;
        return;
      }
      TookTurn(turn, start, all, rounds, end, left, r, after);
      rounds, end, left := rounds + [r], after, left - 1;
      attempt := attempt + 1;
    }
  }

  // ------------------------------------------------------------------ the stage

  datatype Ended = Raised | Reviewed(score: int, repaired: set<string>)

  function LastRun(runs: seq<TestRun>): Option<TestRun> {
    if runs == [] then None else Some(runs[|runs| - 1])
  }

  /** The model's score, kept between 0 and 100. */
  predicate Scored(score: int, answered: int) {
    if answered < 0 then score == 0 else if answered > 100 then score == 100 else score == answered
  }

  /** The stage's two loops, one after the other: the checks' ends at `mid`, the tests' at `end`. */
  ghost predicate LoopsRan(state: PipelineState, llm: Model, sandbox: Option<Sandbox>, start: CheckState,
                           origin: map<string, Stage>, runs: seq<TestRun>, checks: seq<CheckRound>, mid: CheckState,
                           tests: seq<TestRound>, end: TestState)
    reads state
  {
    var c := SettingOf(state, llm);
    && Finished(CheckTurn(c), start, state.maxRepairRounds, checks, mid)
    && if sandbox.Some? then
         Finished(TestTurn(c, sandbox.value), TestState(Tree(mid.files, origin), runs, mid.asked),
           state.maxTestRepairRounds, tests, end)
       else tests == [] && end == TestState(Tree(mid.files, origin), runs, mid.asked)
  }

  /** The repair loops; not ok if the model failed. */
  method RunLoops(state: PipelineState, llm: Model, sandbox: Option<Sandbox>)
    returns (ok: bool, repaired: set<string>, ghost checks: seq<CheckRound>, ghost mid: CheckState,
             ghost tests: seq<TestRound>, ghost end: TestState)
    requires Stable(state.rules) && Owned(state.rules, state.Now())
    modifies state`files, state`origin, state`rejected, state`validation, state`testRuns, state`exhausted, llm
    ensures Owned(state.rules, state.Now()) && (!ok ==> llm.reply(llm.asked).None?)
    ensures ok ==>
      && state.Current() && state.Now() == end.tree && llm.asked == end.asked
      && LoopsRan(state, llm, sandbox, old(CheckStateOf(state, llm)), old(state.origin), old(state.testRuns), checks,
           mid, tests, end)
      && (if sandbox.Some? then Tested(sandbox.value, state.testRuns, state.files)
          else state.testRuns == old(state.testRuns))
      && OnlyChanged(old(state.files), state.files, repaired) && PathsRepaired(checks) <= repaired
  {
    tests := [];
    ok, repaired, checks := RepairChecks(state, llm);
    mid, end := CheckStateOf(state, llm), TestStateOf(state, llm);
    if !ok {
      FinishedIsAll(CheckTurn(SettingOf(state, llm)), old(CheckStateOf(state, llm)), state.maxRepairRounds, checks,
        mid);
      LastCheckFailed(CheckTurn(SettingOf(state, llm)), SettingOf(state, llm), old(CheckStateOf(state, llm)),
        state.maxRepairRounds);
    } else if sandbox.Some? {
      ghost var start := end;
      var more: set<string>;
      ok, more, tests, end := TestAndRepair(state, llm, sandbox.value);
      if !ok {
        FinishedIsAll(TestTurn(SettingOf(state, llm), sandbox.value), start, state.maxTestRepairRounds, tests, end);
        LastTestFailed(TestTurn(SettingOf(state, llm), sandbox.value), SettingOf(state, llm), sandbox.value, start,
          state.maxTestRepairRounds);
      }
      ChangesCompose(old(state.files), mid.files, state.files, repaired, more);
      repaired := repaired + more;
    }
  }

  method Run(state: PipelineState, llm: Model, sandbox: Option<Sandbox>)
    returns (r: Ended, ghost checks: seq<CheckRound>, ghost mid: CheckState, ghost tests: seq<TestRound>,
             ghost end: TestState)
    requires Stable(state.rules) && Owned(state.rules, state.Now())
    modifies state`files, state`origin, state`rejected, state`validation, state`testRuns, state`exhausted, llm
    ensures Owned(state.rules, state.Now())
    ensures r.Raised? <==>
      old(state.requirements).None? || old(state.architecture).None? || llm.reply(llm.asked).None?
    ensures r.Reviewed? ==>
      && state.Current() && state.Now() == end.tree
      && LoopsRan(state, llm, sandbox, old(CheckStateOf(state, llm)), old(state.origin), old(state.testRuns), checks,
           mid, tests, end)
      && (if sandbox.Some? then Tested(sandbox.value, state.testRuns, state.files)
          else state.testRuns == old(state.testRuns))
      && OnlyChanged(old(state.files), state.files, r.repaired) && PathsRepaired(checks) <= r.repaired
      && old(state.files) + Chosen(state.files, r.repaired) == state.files
      && llm.asked == end.asked + [Judge(state.files, state.validation.value, LastRun(state.testRuns))]
      && Scored(r.score, llm.reply(llm.asked).value.score)
  {
    checks, mid, tests, end := [], CheckStateOf(state, llm), [], TestStateOf(state, llm);
    if state.requirements.None? || state.architecture.None? {
      r := Raised;
      return;
    }
    var ok, repaired;
    ok, repaired, checks, mid, tests, end := RunLoops(state, llm, sandbox);
    if !ok {
      r := Raised;
      return;
    }
    UpsertMatchesMemory(old(state.files), state.files, repaired);
    var verdict := llm.Generate(Judge(state.files, state.validation.value, LastRun(state.testRuns)));
    if verdict.None? {
      r := Raised;
      return;
    }
    var score := verdict.value.score;
    r := Reviewed(if score < 0 then 0 else if score > 100 then 100 else score, repaired);
  }
}
