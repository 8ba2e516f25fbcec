/** What a job's row says, in terms of the run that led to it: when it may be claimed, how often it was
    retried, whether it was asked to stop, what was submitted; and what a principal has used. */
module JobHistory {
  import opened Options
  import opened Ledger
  import opened Runs
  import opened Conservation
  import opened Lifecycle

  // ------------------------------------------------------------------ when a job may be claimed

  /** The step puts the job into the queue. */
  ghost predicate Queues(p: Policy, s: System, step: Step, id: JobId)
    requires Possible(s, step)
  {
    match step
    case Submit(i, _, _, _, _, _, _) => i == id && id in Next(p, s, step).tables.jobs
    case Interrupt(i) => i == id && Is(s.tables, id, Running)
    case RetryLater(i, _) => i == id && Is(s.tables, id, Running)
    case RetryFailed(i, _, _) => i == id && Is(s.tables, id, Failed) && Is(Next(p, s, step).tables, id, Queued)
    case _ => false
  }

  /** Until it is claimed or cancelled, a queued job keeps waiting for the same moment. */
  lemma QueuedStays(p: Policy, s: System, step: Step, id: JobId)
    requires Possible(s, step) && Is(s.tables, id, Queued) && !Claims(s, step, id)
    ensures var t, t' := s.tables, Next(p, s, step).tables;
      id in t'.jobs &&
      (t'.jobs[id].status.Cancelled? || (t'.jobs[id].status.Queued? && t'.jobs[id].runAfter == t.jobs[id].runAfter))
  {
    if step.Reap? { ReapLeavesOthers(s.tables, step.stale, id); }
  }

  lemma {:induction false} ReapLeavesOthers(t: Tables, stale: seq<JobId>, id: JobId)
    requires id in t.jobs && !t.jobs[id].status.Running?
    ensures id in AfterReap(t, stale).jobs && AfterReap(t, stale).jobs[id] == t.jobs[id]
  {
    if stale != [] { ReapLeavesOthers(t, stale[..|stale| - 1], id); }
  }

  lemma WaitsFor(p: Policy, s: System, step: Step, id: JobId)
    requires Possible(s, step) && Queues(p, s, step, id)
    ensures Is(Next(p, s, step).tables, id, Queued)
    ensures Next(p, s, step).tables.jobs[id].runAfter == if step.RetryLater? then Some(step.runAfter) else None
  {
  }

  lemma {:induction false} StillWaits(p: Policy, steps: seq<Step>, states: seq<System>, id: JobId, i: nat, k: nat)
    requires IsRun(p, steps, states) && i < k <= |steps| && Queues(p, states[i], steps[i], id)
    requires forall n :: i < n < k ==> !Claims(states[n], steps[n], id)
    ensures id in states[k].tables.jobs
    ensures states[k].tables.jobs[id].status.Cancelled? ||
      (states[k].tables.jobs[id].status.Queued? &&
       states[k].tables.jobs[id].runAfter == if steps[i].RetryLater? then Some(steps[i].runAfter) else None)
    decreases k
  {
    if k == i + 1 {
      WaitsFor(p, states[i], steps[i], id);
    } else {
      StillWaits(p, steps, states, id, i, k - 1);
      if states[k - 1].tables.jobs[id].status.Queued? {
        QueuedStays(p, states[k - 1], steps[k - 1], id);
      } else {
        StatusAfter(p, states[k - 1], steps[k - 1], id);
      }
    }
  }

  /** From every run: a job that still waits since it was last queued is claimed by a worker exactly if that
      worker picked it and, after an automatic retry, the time has come. New, interrupted and manually
      retried jobs may be claimed at once. */
  lemma ClaimableExactly(p: Policy, steps: seq<Step>, states: seq<System>, id: JobId, i: nat, k: nat, worker: nat,
                         now: int)
    requires IsRun(p, steps, states) && i < k <= |steps| && Queues(p, states[i], steps[i], id)
    requires forall n :: i < n < k ==> !Claims(states[n], steps[n], id)
    requires Is(states[k].tables, id, Queued)
    ensures Claims(states[k], Claim(worker, now), id) <==>
      && worker in states[k].picked && states[k].picked[worker] == id
      && (steps[i].RetryLater? ==> now >= steps[i].runAfter)
  {
    StillWaits(p, steps, states, id, i, k);
  }

  /** The next claim after an automatic retry comes no earlier than it was scheduled. */
  lemma RetryWaits(p: Policy, steps: seq<Step>, states: seq<System>, id: JobId, i: nat, j: nat)
    requires IsRun(p, steps, states) && i < j < |steps|
    requires steps[i].RetryLater? && steps[i].id == id && Is(states[i].tables, id, Running)
    requires forall n :: i < n < j ==> !Claims(states[n], steps[n], id)
    requires Claims(states[j], steps[j], id)
    ensures steps[j].now >= steps[i].runAfter
  {
    ClaimableExactly(p, steps, states, id, i, j, steps[j].worker, steps[j].now);
  }

  // ------------------------------------------------------------------ what a row remembers

  /** What was submitted, the retries since, and whether a stop was requested, as the steps tell them. */
  datatype Record = Record(owner: string, metered: bool, key: Option<string>, hash: string, createdAt: int,
                           period: Option<int>, retries: nat, asked: bool)

  ghost function HistoryOf(p: Policy, steps: seq<Step>, states: seq<System>, id: JobId, n: nat): Option<Record>
    requires IsRun(p, steps, states) && n <= |steps|
  {
    if n == 0 then None
    else
      var s, step, r := states[n - 1], steps[n - 1], HistoryOf(p, steps, states, id, n - 1);
      if r.None? then
        match step
        case Submit(i, owner, metered, key, hash, period, createdAt) =>
          if Queues(p, s, step, id)
          then Some(Record(owner, metered, key, hash, createdAt, if metered then Some(period) else None, 0, false))
          else None
        case _ => None
      else if Queues(p, s, step, id) && step.RetryLater? then Some(r.value.(retries := r.value.retries + 1))
      else if Queues(p, s, step, id) && step.RetryFailed? then
        Some(r.value.(retries := 0, period := if r.value.metered then Some(step.period) else r.value.period))
      else if step == Cancel(id) && Is(s.tables, id, Running) then Some(r.value.(asked := true))
      else r
  }

  predicate RowSays(job: Job, r: Record) {
    && job.owner == r.owner && job.metered == r.metered && job.key == r.key && job.hash == r.hash
    && job.createdAt == r.createdAt && job.period == r.period && job.retries == r.retries
    && job.cancelRequested == r.asked
  }

  /** In every run each job's row is what its submission, its retries and the requests to stop it say. */
  lemma {:induction false} RowTellsHistory(p: Policy, steps: seq<Step>, states: seq<System>, id: JobId, n: nat)
    requires IsRun(p, steps, states) && n <= |steps|
    ensures id in states[n].tables.jobs <==> HistoryOf(p, steps, states, id, n).Some?
    ensures id in states[n].tables.jobs ==> RowSays(states[n].tables.jobs[id], HistoryOf(p, steps, states, id, n).value)
  {
    if n > 0 {
      RowTellsHistory(p, steps, states, id, n - 1);
      var s, step := states[n - 1], steps[n - 1];
      if id in s.tables.jobs { RowMoves(p, s, step, id); } else { RowAppears(p, s, step, id); }
    }
  }

  lemma RowAppears(p: Policy, s: System, step: Step, id: JobId)
    requires Possible(s, step) && id !in s.tables.jobs
    ensures var t' := Next(p, s, step).tables;
      && (id in t'.jobs <==> step.Submit? && Queues(p, s, step, id))
      && (id in t'.jobs ==> RowSays(t'.jobs[id], Record(step.owner, step.metered, step.key, step.hash, step.createdAt,
            if step.metered then Some(step.period) else None, 0, false)))
  {
    if step.Reap? { ReapOutcome(s.tables, step.stale, id); }
  }

  /** What one step may do to the remembered columns of a row. */
  ghost predicate Remembers(p: Policy, s: System, step: Step, id: JobId, job: Job, job': Job)
    requires Possible(s, step)
  {
    && job'.owner == job.owner && job'.metered == job.metered && job'.key == job.key && job'.hash == job.hash
    && job'.createdAt == job.createdAt
    && job'.period == (if step.RetryFailed? && Queues(p, s, step, id) && job.metered then Some(step.period)
                       else job.period)
    && job'.retries == (if !Queues(p, s, step, id) then job.retries
                        else if step.RetryLater? then job.retries + 1
                        else if step.RetryFailed? then 0 else job.retries)
    && job'.cancelRequested == (job.cancelRequested || (step == Cancel(id) && Is(s.tables, id, Running)))
  }

  lemma RowMoves(p: Policy, s: System, step: Step, id: JobId)
    requires Possible(s, step) && id in s.tables.jobs
    ensures id in Next(p, s, step).tables.jobs
    ensures Remembers(p, s, step, id, s.tables.jobs[id], Next(p, s, step).tables.jobs[id])
  {
    if step.Reap? {
      ReapRemembers(s.tables, step.stale, id);
    } else if step.RetryFailed? {
      RetryRemembers(p, s, step, id);
    } else if step.BeforeCall? || step.AfterCall? {
      CallsRemember(p, s, step, id);
    } else if step.Cancel? || step.Finish? {
      EndsRemember(p, s, step, id);
    } else {
      RestRemembers(p, s, step, id);
    }
  }

  lemma CallsRemember(p: Policy, s: System, step: Step, id: JobId)
    requires Possible(s, step) && (step.BeforeCall? || step.AfterCall?) && id in s.tables.jobs
    ensures id in Next(p, s, step).tables.jobs
    ensures Remembers(p, s, step, id, s.tables.jobs[id], Next(p, s, step).tables.jobs[id])
  {
  }

  lemma ReleaseRemembers(t: Tables, i: JobId, status: Status, id: JobId)
    requires i in t.jobs && id in t.jobs
    ensures var t' := Released(SetJob(t, i, t.jobs[i].(status := status)), i);
      id in t'.jobs && SameMemory(t.jobs[id], t'.jobs[id])
  {
  }

  lemma EndsRemember(p: Policy, s: System, step: Step, id: JobId)
    requires Possible(s, step) && (step.Cancel? || step.Finish?) && id in s.tables.jobs
    ensures id in Next(p, s, step).tables.jobs
    ensures Remembers(p, s, step, id, s.tables.jobs[id], Next(p, s, step).tables.jobs[id])
  {
    var t := s.tables;
    if step.Finish? {
      if Is(t, step.id, Running) { ReleaseRemembers(t, step.id, step.status, id); }
    } else if Is(t, step.id, Queued) {
      ReleaseRemembers(t, step.id, Cancelled, id);
    } else {
      StopRemembers(p, s, step.id, id);
    }
  }

  lemma StopRemembers(p: Policy, s: System, i: JobId, id: JobId)
    requires id in s.tables.jobs && !Is(s.tables, i, Queued)
    ensures id in Next(p, s, Cancel(i)).tables.jobs
    ensures Remembers(p, s, Cancel(i), id, s.tables.jobs[id], Next(p, s, Cancel(i)).tables.jobs[id])
  {
  }

  lemma RestRemembers(p: Policy, s: System, step: Step, id: JobId)
    requires Possible(s, step) && id in s.tables.jobs
    requires step.Submit? || step.Select? || step.Claim? || step.Interrupt? || step.RetryLater?
    ensures id in Next(p, s, step).tables.jobs
    ensures Remembers(p, s, step, id, s.tables.jobs[id], Next(p, s, step).tables.jobs[id])
  {
  }

  lemma RetryRemembers(p: Policy, s: System, step: Step, id: JobId)
    requires Possible(s, step) && step.RetryFailed? && id in s.tables.jobs
    ensures id in Next(p, s, step).tables.jobs
    ensures Remembers(p, s, step, id, s.tables.jobs[id], Next(p, s, step).tables.jobs[id])
  {
  }

  predicate SameMemory(job: Job, job': Job) {
    && job'.owner == job.owner && job'.metered == job.metered && job'.key == job.key && job'.hash == job.hash
    && job'.createdAt == job.createdAt && job'.period == job.period && job'.retries == job.retries
    && job'.cancelRequested == job.cancelRequested
  }

  lemma {:induction false} ReapRemembers(t: Tables, stale: seq<JobId>, id: JobId)
    requires id in t.jobs
    ensures id in AfterReap(t, stale).jobs && SameMemory(t.jobs[id], AfterReap(t, stale).jobs[id])
  {
    if stale != [] { ReapRemembers(t, stale[..|stale| - 1], id); }
  }

  // ------------------------------------------------------------------ what a principal has used

  ghost function TokensUntil(steps: seq<Step>, states: seq<System>, owner: string, period: int, n: nat): nat
    requires n <= |steps| <= |states|
  {
    if n == 0 then 0
    else
      TokensUntil(steps, states, owner, period, n - 1) + TokensOf(states[n - 1], steps[n - 1], owner, period)
  }

  function TokensOf(s: System, step: Step, owner: string, period: int): nat {
    if step.AfterCall? && step.id in s.guards && s.guards[step.id].owner == owner && s.guards[step.id].period == period
    then step.tokens else 0
  }

  /** Every reported token is counted once, in the period its job counts in, with or without a limit. */
  lemma {:induction false} EveryTokenIsCounted(p: Policy, steps: seq<Step>, states: seq<System>, owner: string,
                                               period: int, n: nat)
    requires IsRun(p, steps, states) && n <= |steps|
    ensures RowOf(states[n].tables, owner, period).used == TokensUntil(steps, states, owner, period, n)
  {
    if n > 0 {
      EveryTokenIsCounted(p, steps, states, owner, period, n - 1);
      EveryRunConserves(p, steps, states, n - 1);
      UsedMoves(p, states[n - 1], steps[n - 1], owner, period);
    }
  }

  lemma UsedMoves(p: Policy, s: System, step: Step, owner: string, period: int)
    requires Inv(p, s) && Possible(s, step)
    ensures RowOf(Next(p, s, step).tables, owner, period).used
      == RowOf(s.tables, owner, period).used + TokensOf(s, step, owner, period)
  {
    if step.Reap? {
      ReapUsesNothing(s.tables, step.stale, owner, period);
    } else if step.AfterCall? {
      ReportUses(p, s, step, owner, period);
    } else if step.Submit? || step.RetryFailed? {
      ReservingUsesNothing(p, s, step, owner, period);
    } else {
      RestUsesNothing(p, s, step, owner, period);
    }
  }

  lemma ReservingUsesNothing(p: Policy, s: System, step: Step, owner: string, period: int)
    requires Possible(s, step) && (step.Submit? || step.RetryFailed?)
    ensures RowOf(Next(p, s, step).tables, owner, period).used == RowOf(s.tables, owner, period).used
  {
  }

  lemma RestUsesNothing(p: Policy, s: System, step: Step, owner: string, period: int)
    requires Possible(s, step) && !step.Submit? && !step.RetryFailed? && !step.Reap? && !step.AfterCall?
    ensures RowOf(Next(p, s, step).tables, owner, period).used == RowOf(s.tables, owner, period).used
  {
  }

  lemma ReportUses(p: Policy, s: System, step: Step, owner: string, period: int)
    requires Inv(p, s) && Possible(s, step) && step.AfterCall?
    ensures RowOf(Next(p, s, step).tables, owner, period).used
      == RowOf(s.tables, owner, period).used + TokensOf(s, step, owner, period)
  {
    assert GuardOk(p, s.tables, step.id, s.guards[step.id]);
    assert JobOk(p, s.tables, s.tables.jobs[step.id]);
  }

  lemma {:induction false} ReapUsesNothing(t: Tables, stale: seq<JobId>, owner: string, period: int)
    ensures RowOf(AfterReap(t, stale), owner, period).used == RowOf(t, owner, period).used
  {
    if stale != [] { ReapUsesNothing(t, stale[..|stale| - 1], owner, period); }
  }

  // ------------------------------------------------------------------ what the log says

  function KindOf(status: Status): string {
    match status
    case Succeeded => "job.succeeded"
    case Failed => "job.failed"
    case Cancelled => "job.cancelled"
    case _ => ""
  }

  /** The job has not ended well, nor is it waiting, when the reaper comes to it. */
  predicate Reapable(t: Tables, id: JobId) {
    id in t.jobs ==> t.jobs[id].status.Running? || t.jobs[id].status.Failed?
  }

  /** Workers name the outcome they report, and no job that the reaper has selected goes on or ends otherwise before
      the reaper's update. */
  predicate Labelled(s: System, step: Step) {
    match step
    case Finish(_, status, kind) => kind == KindOf(status)
    case Reap(stale) => forall i :: 0 <= i < |stale| ==> Reapable(s.tables, stale[i])
    case _ => true
  }

  ghost function LastKind(events: seq<Event>, id: JobId): Option<string> {
    if events == [] then None
    else if events[|events| - 1].job == id then Some(events[|events| - 1].kind)
    else LastKind(events[..|events| - 1], id)
  }

  /** The last event of a job agrees with its status. */
  ghost predicate LogAgrees(t: Tables, id: JobId) {
    id in t.jobs ==>
      var last := LastKind(t.events, id);
      if t.jobs[id].status.Terminal() then last == Some(KindOf(t.jobs[id].status))
      else last in {Some("job.queued"), Some("job.cancel_requested"), Some("job.requeued"),
                    Some("job.retry_scheduled"), Some("job.retried")}
  }

  lemma LoggedOne(t: Tables, id: JobId, kind: string, other: JobId)
    ensures LastKind(Log(t, id, kind).events, other) == if other == id then Some(kind) else LastKind(t.events, other)
  {
    assert Log(t, id, kind).events[..|t.events|] == t.events;
  }

  lemma StepAgrees(p: Policy, s: System, step: Step, id: JobId)
    requires Possible(s, step) && Labelled(s, step) && LogAgrees(s.tables, id)
    ensures LogAgrees(Next(p, s, step).tables, id)
  {
    match step
    case Submit(_, _, _, _, _, _, _) => SubmitAgrees(p, s, step, id);
    case Cancel(i) => CancelAgrees(p, s, i, id);
    case Finish(_, _, _) => FinishAgrees(p, s, step, id);
    case Interrupt(i) => RequeueAgrees(p, s, step, id);
    case RetryLater(i, _) => RequeueAgrees(p, s, step, id);
    case Reap(stale) => ReapAgrees(s.tables, stale, id);
    case RetryFailed(i, owner, period) => RetryAgrees(p, s, step, id);
    case _ => QuietAgrees(p, s, step, id);
  }

  lemma QuietAgrees(p: Policy, s: System, step: Step, id: JobId)
    requires Possible(s, step) && LogAgrees(s.tables, id)
    requires step.BeforeCall? || step.AfterCall? || step.Select? || step.Claim?
    ensures LogAgrees(Next(p, s, step).tables, id)
  {
    assert Next(p, s, step).tables.events == s.tables.events;
  }

  lemma SubmitAgrees(p: Policy, s: System, step: Step, id: JobId)
    requires Possible(s, step) && step.Submit? && LogAgrees(s.tables, id)
    ensures LogAgrees(Next(p, s, step).tables, id)
  {
    var t, i, r := s.tables, step.id, ReservationOf(p, step.owner, step.metered, step.period);
    if CreationOf(t, step.owner, step.key, r).Created? {
      var job := NewJob(step.owner, step.metered, step.key, step.hash, r, step.createdAt);
      LoggedOne(SetJob(Reserve(t, step.owner, r).value, i, job), i, "job.queued", id);
    }
  }

  lemma FinishAgrees(p: Policy, s: System, step: Step, id: JobId)
    requires Possible(s, step) && step.Finish? && Labelled(s, step) && LogAgrees(s.tables, id)
    ensures LogAgrees(Next(p, s, step).tables, id)
  {
    var t, i := s.tables, step.id;
    if Is(t, i, Running) {
      LoggedOne(Released(SetJob(t, i, t.jobs[i].(status := step.status)), i), i, step.kind, id);
    }
  }

  lemma CancelAgrees(p: Policy, s: System, i: JobId, id: JobId)
    requires LogAgrees(s.tables, id)
    ensures LogAgrees(AfterCancel(s.tables, i), id)
  {
    var t := s.tables;
    if Is(t, i, Queued) {
      LoggedOne(Released(SetJob(t, i, t.jobs[i].(status := Cancelled)), i), i, "job.cancelled", id);
    } else if Is(t, i, Running) && !t.jobs[i].cancelRequested {
      LoggedOne(SetJob(t, i, t.jobs[i].(cancelRequested := true)), i, "job.cancel_requested", id);
    }
  }

  lemma RequeueAgrees(p: Policy, s: System, step: Step, id: JobId)
    requires Possible(s, step) && (step.Interrupt? || step.RetryLater?) && LogAgrees(s.tables, id)
    ensures LogAgrees(Next(p, s, step).tables, id)
  {
    var t, i := s.tables, step.id;
    if Is(t, i, Running) {
      LoggedOne(SetJob(t, i, Next(p, s, step).tables.jobs[i]), i,
        if step.Interrupt? then "job.requeued" else "job.retry_scheduled", id);
    }
  }

  lemma RetryAgrees(p: Policy, s: System, step: Step, id: JobId)
    requires Possible(s, step) && step.RetryFailed? && LogAgrees(s.tables, id)
    ensures LogAgrees(Next(p, s, step).tables, id)
  {
    var t, i := s.tables, step.id;
    var r := RetryReservation(p, t, i, step.owner, step.period);
    if RetryWins(t, i, step.owner, r) {
      LoggedOne(SetJob(Reserve(t, step.owner, r).value, i, RetriedJob(t.jobs[i], r)), i, "job.retried", id);
    }
  }

  lemma {:induction false} ReapAgrees(t: Tables, stale: seq<JobId>, id: JobId)
    requires LogAgrees(t, id) && (id in stale ==> Reapable(t, id))
    ensures LogAgrees(AfterReap(t, stale), id)
  {
    if stale != [] {
      var init, i := stale[..|stale| - 1], stale[|stale| - 1];
      assert stale == init + [i];
      ReapAgrees(t, init, id);
      ReapOutcome(t, init, id);
      var t' := AfterReap(t, init);
      LoggedOne(if Is(t', i, Running) then Released(SetJob(t', i, t'.jobs[i].(status := Failed)), i) else t', i,
        "job.failed", id);
    }
  }

  lemma {:induction false} ReapLogsFailure(t: Tables, stale: seq<JobId>, id: JobId)
    requires id in stale
    ensures LastKind(AfterReap(t, stale).events, id) == Some("job.failed")
  {
    var init, i := stale[..|stale| - 1], stale[|stale| - 1];
    assert stale == init + [i];
    var t' := AfterReap(t, init);
    LoggedOne(if Is(t', i, Running) then Released(SetJob(t', i, t'.jobs[i].(status := Failed)), i) else t', i,
      "job.failed", id);
    if i != id { ReapLogsFailure(t, init, id); }
  }

  /** The reaper writes its event whatever became of the job: log and status agree afterwards if and only if each
      job it selected was running still, or had failed already. */
  lemma ReapAgreesExactly(t: Tables, stale: seq<JobId>, id: JobId)
    requires LogAgrees(t, id)
    ensures LogAgrees(AfterReap(t, stale), id) <==> (id in stale ==> Reapable(t, id))
  {
    if id in stale ==> Reapable(t, id) {
      ReapAgrees(t, stale, id);
    } else {
      ReapOutcome(t, stale, id);
      ReapLogsFailure(t, stale, id);
    }
  }

  /** It happens: a worker reports success between the reaper's selection and its update, and the log ends with
      the failure of a job that succeeded. */
  lemma SuccessLoggedAsFailure(p: Policy) returns (steps: seq<Step>, states: seq<System>)
    ensures IsRun(p, steps, states)
    ensures var t := states[|steps|].tables;
      0 in t.jobs && t.jobs[0].status == Succeeded && LastKind(t.events, 0) == Some("job.failed")
  {
    steps := [Submit(0, "a", false, None, "", 0, 0), Select(0, 0), Claim(0, 0), Finish(0, Succeeded, "job.succeeded"),
              Reap([0])];
    var a := Next(p, EMPTY, steps[0]);
    var b := Next(p, a, steps[1]);
    var c := Next(p, b, steps[2]);
    var d := Next(p, c, steps[3]);
    var e := Next(p, d, steps[4]);
    states := [EMPTY, a, b, c, d, e];
    ReapOutcome(d.tables, [0], 0);
    ReapLogsFailure(d.tables, [0], 0);
  }

  /** In every run whose workers name their outcomes, the last event of a finished job is its outcome, and
      that of any other job is one of the five that leave it unfinished. */
  lemma {:induction false} LogTellsOutcome(p: Policy, steps: seq<Step>, states: seq<System>, id: JobId, n: nat)
    requires IsRun(p, steps, states) && n <= |steps|
    requires forall k :: 0 <= k < |steps| ==> Labelled(states[k], steps[k])
    ensures LogAgrees(states[n].tables, id)
  {
    if n > 0 {
      LogTellsOutcome(p, steps, states, id, n - 1);
      StepAgrees(p, states[n - 1], steps[n - 1], id);
    }
  }

  // ------------------------------------------------------------------ what is reserved

  /** A principal's own limit counts before the default one, and a job reserves what is configured: no more
      than the limit, and at least one token. */
  lemma ReservationIsConfigured(p: Policy, owner: string, period: int)
    ensures owner in p.limits ==> p.LimitFor(owner) == Some(p.limits[owner])
    ensures owner !in p.limits ==> p.LimitFor(owner) == p.defaultLimit
    ensures ReservationOf(p, owner, false, period) == None
    ensures ReservationOf(p, owner, true, period).Some?
    ensures var r := ReservationOf(p, owner, true, period).value; var limit := p.LimitFor(owner);
      && r.period == period && r.limit == limit
      && (limit.None? ==> r.amount == 0)
      && (limit.Some? && 1 <= p.reservation <= limit.value ==> r.amount == p.reservation)
      && (limit.Some? && 1 <= limit.value <= p.reservation ==> r.amount == limit.value)
      && (limit.Some? && (p.reservation == 0 || limit.value == 0) ==> r.amount == 1)
  {
  }
}
