/** Who may move a job, and what a lost race leaves behind. */
module Lifecycle {
  import opened Ledger
  import opened Runs

  /** `claim_next` returned this job: the UPDATE of a worker that had picked it matched. */
  ghost predicate Claims(s: System, step: Step, id: JobId) {
    step.Claim? && step.worker in s.picked && s.picked[step.worker] == id && ClaimWins(s.tables, id, step.now)
  }

  /** A transaction that ends a claim reported success for this job. */
  ghost predicate Departs(s: System, step: Step, id: JobId) {
    && Is(s.tables, id, Running)
    && match step
       case Finish(i, _, _) => i == id
       case Interrupt(i) => i == id
       case RetryLater(i, _) => i == id
       case Reap(stale) => id in stale
       case _ => false
  }

  ghost function ClaimCount(steps: seq<Step>, states: seq<System>, id: JobId, n: nat): nat
    requires n <= |steps| <= |states|
  {
    if n == 0 then 0
    else ClaimCount(steps, states, id, n - 1) + if Claims(states[n - 1], steps[n - 1], id) then 1 else 0
  }

  ghost function DepartureCount(steps: seq<Step>, states: seq<System>, id: JobId, n: nat): nat
    requires n <= |steps| <= |states|
  {
    if n == 0 then 0
    else DepartureCount(steps, states, id, n - 1) + if Departs(states[n - 1], steps[n - 1], id) then 1 else 0
  }

  /** The moves a job can make. */
  ghost predicate Allowed(s: System, step: Step, id: JobId, from: Status, to: Status) {
    || from == to
    || (from.Queued? && to.Running? && Claims(s, step, id))
    || (from.Queued? && to.Cancelled? && step == Cancel(id))
    || (from.Running? && to.Terminal() && Departs(s, step, id) && (step.Finish? || (step.Reap? && to.Failed?)))
    || (from.Running? && to.Queued? && Departs(s, step, id) && (step.Interrupt? || step.RetryLater?))
    || (from.Failed? && to.Queued? && step.RetryFailed? && step.id == id)
  }

  lemma ReleasedKeepsStatus(t: Tables, id: JobId, other: JobId)
    ensures other in Released(t, id).jobs <==> other in t.jobs
    ensures other in t.jobs ==> Released(t, id).jobs[other].status == t.jobs[other].status
  {
  }

  /** The reaper fails exactly the running ones of the jobs it selected. */
  lemma {:induction false} ReapOutcome(t: Tables, stale: seq<JobId>, id: JobId)
    ensures id in AfterReap(t, stale).jobs <==> id in t.jobs
    ensures id in t.jobs ==> (AfterReap(t, stale).jobs[id].status ==
      if id in stale && t.jobs[id].status.Running? then Failed else t.jobs[id].status)
  {
    if stale != [] {
      var init, last := stale[..|stale| - 1], stale[|stale| - 1];
      ReapOutcome(t, init, id);
      assert stale == init + [last];
      var t' := AfterReap(t, init);
      if Is(t', last, Running) {
        ReleasedKeepsStatus(SetJob(t', last, t'.jobs[last].(status := Failed)), last, id);
      }
    }
  }

  lemma StatusAfter(p: Policy, s: System, step: Step, id: JobId)
    requires Possible(s, step) && id in s.tables.jobs
    ensures id in Next(p, s, step).tables.jobs
    ensures Allowed(s, step, id, s.tables.jobs[id].status, Next(p, s, step).tables.jobs[id].status)
    ensures Departs(s, step, id) ==> !Is(Next(p, s, step).tables, id, Running)
    ensures Claims(s, step, id) ==> Is(Next(p, s, step).tables, id, Running)
  {
    var t := s.tables;
    match step
    case Reap(stale) => ReapOutcome(t, stale, id);
    case Cancel(i) =>
      if Is(t, i, Queued) { ReleasedKeepsStatus(SetJob(t, i, t.jobs[i].(status := Cancelled)), i, id); }
    case Finish(i, status, _) =>
      if Is(t, i, Running) { ReleasedKeepsStatus(SetJob(t, i, t.jobs[i].(status := status)), i, id); }
    case _ =>
  }

  lemma NewJobsAreQueued(p: Policy, s: System, step: Step, id: JobId)
    requires Possible(s, step) && id !in s.tables.jobs
    ensures !Is(Next(p, s, step).tables, id, Running)
    ensures !Claims(s, step, id) && !Departs(s, step, id)
  {
    var t := s.tables;
    match step
    case Reap(stale) => ReapOutcome(t, stale, id);
    case Cancel(i) =>
      if Is(t, i, Queued) { ReleasedKeepsStatus(SetJob(t, i, t.jobs[i].(status := Cancelled)), i, id); }
    case Finish(i, status, _) =>
      if Is(t, i, Running) { ReleasedKeepsStatus(SetJob(t, i, t.jobs[i].(status := status)), i, id); }
    case _ =>
  }

  /** Successful claims and departures alternate: never two workers on one job, never a job that
      left running without having been claimed. */
  lemma {:induction false} ClaimsMinusDepartures(p: Policy, steps: seq<Step>, states: seq<System>, id: JobId, n: nat)
    requires IsRun(p, steps, states) && n <= |steps|
    ensures ClaimCount(steps, states, id, n) - DepartureCount(steps, states, id, n)
      == if Is(states[n].tables, id, Running) then 1 else 0
  {
    if n > 0 {
      ClaimsMinusDepartures(p, steps, states, id, n - 1);
      var s, step := states[n - 1], steps[n - 1];
      if id in s.tables.jobs { StatusAfter(p, s, step, id); } else { NewJobsAreQueued(p, s, step, id); }
    }
  }

  /** Succeeded and cancelled are final; failed is left only by the owner's retry. */
  lemma {:induction false} TerminalStates(p: Policy, steps: seq<Step>, states: seq<System>, id: JobId, m: nat, n: nat)
    requires IsRun(p, steps, states) && m <= n <= |steps| && id in states[m].tables.jobs
    requires states[m].tables.jobs[id].status.Terminal()
    requires states[m].tables.jobs[id].status.Failed? ==>
      forall k :: m <= k < n ==> !(steps[k].RetryFailed? && steps[k].id == id)
    ensures id in states[n].tables.jobs && states[n].tables.jobs[id].status == states[m].tables.jobs[id].status
  {
    if m < n {
      TerminalStates(p, steps, states, id, m, n - 1);
      StatusAfter(p, states[n - 1], steps[n - 1], id);
    }
  }

  predicate Transition(step: Step) {
    !step.Select? && !step.BeforeCall? && !step.AfterCall?
  }

  /** What the transaction reports to its caller: that its guarded update, or its insertion, went through. */
  predicate Wins(p: Policy, s: System, step: Step)
    requires Transition(step)
  {
    match step
    case Submit(_, owner, metered, key, _, period, _) =>
      CreationOf(s.tables, owner, key, ReservationOf(p, owner, metered, period)).Created?
    case Claim(worker, now) => worker in s.picked && ClaimWins(s.tables, s.picked[worker], now)
    case Cancel(id) => Is(s.tables, id, Queued) || (Is(s.tables, id, Running) && !s.tables.jobs[id].cancelRequested)
    case Finish(id, _, _) => Is(s.tables, id, Running)
    case Interrupt(id) => Is(s.tables, id, Running)
    case RetryLater(id, _) => Is(s.tables, id, Running)
    case Reap(stale) => stale != []
    case RetryFailed(id, owner, period) =>
      RetryWins(s.tables, id, owner, RetryReservation(p, s.tables, id, owner, period))
  }

  lemma {:induction false} ReapLogsEach(t: Tables, stale: seq<JobId>)
    ensures |AfterReap(t, stale).events| == |t.events| + |stale|
  {
    if stale != [] { ReapLogsEach(t, stale[..|stale| - 1]); }
  }

  /** A transition writes exactly when it reports success: the loser of a race, and a refused submission
      or retry, leave jobs, ledger and events as they were, and no winner goes unrecorded. */
  lemma OnlyWinnersWrite(p: Policy, s: System, step: Step)
    requires Possible(s, step) && Transition(step)
    ensures Next(p, s, step).tables != s.tables <==> Wins(p, s, step)
  {
    if step.Reap? { ReapLogsEach(s.tables, step.stale); }
  }

  /** A job stays with the worker that claimed it until it departs. */
  lemma {:induction false} RunsUntilDeparture(p: Policy, steps: seq<Step>, states: seq<System>, id: JobId, i: nat,
                                              j: nat)
    requires IsRun(p, steps, states) && i <= j <= |steps| && Is(states[i].tables, id, Running)
    requires forall k :: i <= k < j ==> !Departs(states[k], steps[k], id)
    ensures Is(states[j].tables, id, Running)
  {
    if i < j {
      RunsUntilDeparture(p, steps, states, id, i, j - 1);
      StatusAfter(p, states[j - 1], steps[j - 1], id);
    }
  }

  /** Whatever two workers picked and however their steps fall, a job is claimed a second time only after
      it has left the first worker's hands. */
  lemma OneClaimWins(p: Policy, steps: seq<Step>, states: seq<System>, id: JobId, i: nat, j: nat)
    requires IsRun(p, steps, states) && i < j < |steps|
    requires Claims(states[i], steps[i], id) && Claims(states[j], steps[j], id)
    ensures exists k :: i < k < j && Departs(states[k], steps[k], id)
  {
    StatusAfter(p, states[i], steps[i], id);
    if forall k :: i < k < j ==> !Departs(states[k], steps[k], id) {
      RunsUntilDeparture(p, steps, states, id, i + 1, j);
      assert false;
    }
  }
}
