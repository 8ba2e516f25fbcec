/** How far a principal can spend past its limit. The module comment of src/autoswe/budget.py and
    docs/adr/0002-token-budgets-and-cost.md bound it by one call; it is one call for each job that
    holds a reservation. */
module Overshoot {
  import opened Options
  import opened Ledger
  import opened Runs
  import opened Conservation

  /** Tokens used and reserved in a principal's period. */
  ghost function Spent(t: Tables, owner: string, period: int): nat {
    RowOf(t, owner, period).used + RowOf(t, owner, period).reserved
  }

  /** The number of jobs now holding a reservation against it. */
  ghost function Holders(t: Tables, owner: string, period: int): nat {
    Sum(t.jobs, HoldsFrom(owner, period))
  }

  /** Every call that could still run over its reservation counts for what it could add. */
  ghost predicate Bounded(t: Tables, owner: string, period: int, limit: nat, most: nat, call: nat) {
    && call >= 1 && Holders(t, owner, period) <= most
    && Spent(t, owner, period) <= limit + (most - Holders(t, owner, period)) * (call - 1)
  }

  /** Nothing is newly spent, nobody newly holds. */
  ghost predicate Eased(t: Tables, t': Tables, owner: string, period: int) {
    Spent(t', owner, period) <= Spent(t, owner, period) && Holders(t', owner, period) <= Holders(t, owner, period)
  }

  /** A call ran over what its job held, and the job holds nothing more. */
  ghost predicate Overdrawn(t: Tables, t': Tables, owner: string, period: int, call: nat) {
    && Spent(t', owner, period) + 1 <= Spent(t, owner, period) + call
    && Holders(t', owner, period) + 1 <= Holders(t, owner, period)
  }

  lemma Scaled(a: int, b: int, c: nat)
    requires a <= b
    ensures a * c <= b * c
  {
  }

  lemma MovesKeepBound(t: Tables, t': Tables, owner: string, period: int, limit: nat, most: nat, call: nat)
    requires Bounded(t, owner, period, limit, most, call) && Holders(t', owner, period) <= most
    requires Eased(t, t', owner, period) || Spent(t', owner, period) <= limit || Overdrawn(t, t', owner, period, call)
    ensures Bounded(t', owner, period, limit, most, call)
  {
    var a, a' := Holders(t, owner, period), Holders(t', owner, period);
    if Spent(t', owner, period) <= limit {
      Scaled(0, most - a', call - 1);
    } else if Eased(t, t', owner, period) {
      Scaled(most - a, most - a', call - 1);
    } else {
      Scaled(most - a + 1, most - a', call - 1);
      assert (most - a + 1) * (call - 1) == (most - a) * (call - 1) + (call - 1);
    }
  }

  lemma HoldersPut(t: Tables, t': Tables, id: JobId, job: Job, owner: string, period: int)
    requires t'.jobs == t.jobs[id := job]
    ensures Holders(t', owner, period) + (if id in t.jobs then HoldsFrom(owner, period)(t.jobs[id]) else 0)
      == Holders(t, owner, period) + HoldsFrom(owner, period)(job)
  {
    SumPut(t.jobs, HoldsFrom(owner, period), id, job);
  }

  lemma ReleaseEases(p: Policy, t: Tables, id: JobId, status: Status, owner: string, period: int)
    requires TablesOk(p, t) && id in t.jobs
    ensures Eased(t, Released(SetJob(t, id, t.jobs[id].(status := status)), id), owner, period)
  {
    ReleaseKeepsOk(p, t, id, status);
    HoldersPut(t, Released(SetJob(t, id, t.jobs[id].(status := status)), id), id,
               t.jobs[id].(status := status, reserved := 0), owner, period);
  }

  lemma {:induction false} ReapEases(p: Policy, t: Tables, stale: seq<JobId>, owner: string, period: int)
    requires TablesOk(p, t)
    ensures Eased(t, AfterReap(t, stale), owner, period)
  {
    if stale != [] {
      var init, id := stale[..|stale| - 1], stale[|stale| - 1];
      ReapEases(p, t, init, owner, period);
      ReapKeepsOk(p, t, init);
      var t' := AfterReap(t, init);
      if Is(t', id, Running) { ReleaseEases(p, t', id, Failed, owner, period); }
    }
  }

  /** A transaction that takes a reservation leaves its own row within the limit. */
  lemma ReserveFits(p: Policy, t: Tables, id: JobId, job: Job, r: Option<Reservation>, owner: string, period: int,
                    limit: nat)
    requires Reserve(t, job.owner, r).Some? && p.LimitFor(owner) == Some(limit)
    requires r.Some? ==>
      job.period == Some(r.value.period) && job.reserved == HeldUnder(r) && r.value.limit == p.LimitFor(job.owner)
    requires r.None? ==> job.reserved == 0
    ensures var t' := SetJob(Reserve(t, job.owner, r).value, id, job);
      Eased(t, t', owner, period) || Spent(t', owner, period) <= limit
  {
    var t' := SetJob(Reserve(t, job.owner, r).value, id, job);
    HoldersPut(t, t', id, job, owner, period);
  }

  lemma ExtendFits(p: Policy, t: Tables, id: JobId, amount: nat, l: nat, owner: string, period: int, limit: nat)
    requires id in t.jobs && t.jobs[id].period.Some? && p.LimitFor(t.jobs[id].owner) == Some(l)
    requires p.LimitFor(owner) == Some(limit)
    requires Fits(t, t.jobs[id].owner, t.jobs[id].period.value, amount, l)
    ensures var t' := Extended(t, id, t.jobs[id].owner, t.jobs[id].period.value, amount, l);
      Eased(t, t', owner, period) || Spent(t', owner, period) <= limit
  {
    var job := t.jobs[id];
    var t' := Extended(t, id, job.owner, job.period.value, amount, l);
    HoldersPut(t, t', id, job.(reserved := job.reserved + amount), owner, period);
  }

  /** A report with a limit to respect comes from a job that still holds something. */
  lemma ReportMoves(p: Policy, t: Tables, id: JobId, tokens: nat, call: nat, owner: string, period: int)
    requires TablesOk(p, t) && id in t.jobs && t.jobs[id].metered && t.jobs[id].reserved > 0 && tokens <= call
    ensures var job := t.jobs[id];
      var t' := Recorded(t, id, job.owner, job.period.value, tokens, Min(tokens, job.reserved));
      Eased(t, t', owner, period) || Overdrawn(t, t', owner, period, call)
  {
    var job := t.jobs[id];
    var consumed := Min(tokens, job.reserved);
    var t' := Recorded(t, id, job.owner, job.period.value, tokens, consumed);
    RowCoversJob(p, t, id);
    if consumed == 0 { assert t.jobs[id := job] == t.jobs; }
    HoldersPut(t, t', id, job.(reserved := job.reserved - consumed), owner, period);
  }

  /** An unlimited principal's calls touch no limited row. */
  lemma ReportElsewhere(p: Policy, t: Tables, id: JobId, tokens: nat, owner: string, period: int)
    requires TablesOk(p, t) && id in t.jobs && t.jobs[id].metered
      && t.jobs[id].owner != owner && t.jobs[id].reserved == 0
    ensures Eased(t, Recorded(t, id, t.jobs[id].owner, t.jobs[id].period.value, tokens, 0), owner, period)
  {
  }

  ghost predicate CallsAtMost(step: Step, call: nat) {
    step.AfterCall? ==> step.tokens <= call
  }

  lemma SubmitMoves(p: Policy, s: System, step: Step, owner: string, period: int, limit: nat)
    requires Inv(p, s) && Possible(s, step) && step.Submit? && p.LimitFor(owner) == Some(limit)
    ensures var t, t' := s.tables, Next(p, s, step).tables;
      Eased(t, t', owner, period) || Spent(t', owner, period) <= limit
  {
    var r := ReservationOf(p, step.owner, step.metered, step.period);
    if CreationOf(s.tables, step.owner, step.key, r).Created? {
      var job := NewJob(step.owner, step.metered, step.key, step.hash, r, step.createdAt);
      ReserveFits(p, s.tables, step.id, job, r, owner, period, limit);
    }
  }

  lemma CallMoves(p: Policy, s: System, step: Step, owner: string, period: int, limit: nat, call: nat)
    requires Inv(p, s) && Possible(s, step) && (step.BeforeCall? || step.AfterCall?)
    requires p.LimitFor(owner) == Some(limit) && CallsAtMost(step, call)
    ensures var t, t' := s.tables, Next(p, s, step).tables;
      Eased(t, t', owner, period) || Spent(t', owner, period) <= limit || Overdrawn(t, t', owner, period, call)
  {
    var t, g := s.tables, s.guards[step.id];
    assert GuardOk(p, t, step.id, g);
    assert JobOk(p, t, t.jobs[step.id]);
    if step.AfterCall? {
      if g.limit.Some? {
        ReportMoves(p, t, step.id, step.tokens, call, owner, period);
      } else {
        ReportElsewhere(p, t, step.id, step.tokens, owner, period);
      }
    } else if g.limit.Some? && g.reserved == 0 && Fits(t, g.owner, g.period, p.ReservationFor(g.limit), g.limit.value) {
      ExtendFits(p, t, step.id, p.ReservationFor(g.limit), g.limit.value, owner, period, limit);
    }
  }

  lemma StepMoves(p: Policy, s: System, step: Step, owner: string, period: int, limit: nat, call: nat)
    requires Inv(p, s) && Possible(s, step) && p.LimitFor(owner) == Some(limit) && CallsAtMost(step, call)
    ensures var t, t' := s.tables, Next(p, s, step).tables;
      Eased(t, t', owner, period) || Spent(t', owner, period) <= limit || Overdrawn(t, t', owner, period, call)
  {
    var t := s.tables;
    match step
    case Submit(_, _, _, _, _, _, _) => SubmitMoves(p, s, step, owner, period, limit);
    case Select(_, _) =>
    case Claim(worker, now) =>
      if worker in s.picked && ClaimWins(t, s.picked[worker], now) {
        var id := s.picked[worker];
        HoldersPut(t, AfterClaim(t, id, now), id, t.jobs[id].(status := Running), owner, period);
      }
    case BeforeCall(_) => CallMoves(p, s, step, owner, period, limit, call);
    case AfterCall(_, _) => CallMoves(p, s, step, owner, period, limit, call);
    case Cancel(id) =>
      if Is(t, id, Queued) { ReleaseEases(p, t, id, Cancelled, owner, period); }
      else if Is(t, id, Running) {
        HoldersPut(t, AfterCancel(t, id), id, t.jobs[id].(cancelRequested := true), owner, period);
      }
    case Finish(id, status, kind) =>
      if Is(t, id, Running) { ReleaseEases(p, t, id, status, owner, period); }
    case Interrupt(id) =>
      if Is(t, id, Running) {
        HoldersPut(t, AfterInterrupt(t, id), id, t.jobs[id].(status := Queued, runAfter := None), owner, period);
      }
    case RetryLater(id, runAfter) =>
      if Is(t, id, Running) {
        HoldersPut(t, AfterScheduleRetry(t, id, runAfter), id,
          t.jobs[id].(status := Queued, retries := t.jobs[id].retries + 1, runAfter := Some(runAfter)), owner, period);
      }
    case Reap(stale) => ReapEases(p, t, stale, owner, period);
    case RetryFailed(id, o, per) =>
      var r := RetryReservation(p, t, id, o, per);
      if RetryWins(t, id, o, r) {
        assert JobOk(p, t, t.jobs[id]);
        ReserveFits(p, t, id, RetriedJob(t.jobs[id], r), r, owner, period, limit);
      }
  }

  /** The true overshoot bound: with at most `most` jobs ever holding a reservation of this row at
      once and calls of at most `call` tokens, used and reserved tokens never exceed the limit by
      more than `call - 1` for each job that is not holding one now. */
  lemma {:induction false} OvershootBound(p: Policy, steps: seq<Step>, states: seq<System>, i: nat,
                                          owner: string, period: int, limit: nat, most: nat, call: nat)
    requires IsRun(p, steps, states) && i < |states| && p.LimitFor(owner) == Some(limit) && call >= 1
    requires forall k :: 0 <= k < |steps| ==> CallsAtMost(steps[k], call)
    requires forall k :: 0 <= k < |states| ==> Holders(states[k].tables, owner, period) <= most
    ensures Bounded(states[i].tables, owner, period, limit, most, call)
  {
    if i == 0 {
      assert Spent(EMPTY.tables, owner, period) == 0;
      Scaled(0, most - Holders(EMPTY.tables, owner, period), call - 1);
    } else {
      OvershootBound(p, steps, states, i - 1, owner, period, limit, most, call);
      EveryRunConserves(p, steps, states, i - 1);
      StepMoves(p, states[i - 1], steps[i - 1], owner, period, limit, call);
      MovesKeepBound(states[i - 1].tables, states[i].tables, owner, period, limit, most, call);
    }
  }

  /** With one job at a time the documented bound holds: less than one call over the limit. */
  lemma OneJobOvershootsLessThanOneCall(p: Policy, steps: seq<Step>, states: seq<System>, i: nat,
                                        owner: string, period: int, limit: nat, call: nat)
    requires IsRun(p, steps, states) && i < |states| && p.LimitFor(owner) == Some(limit) && call >= 1
    requires forall k :: 0 <= k < |steps| ==> CallsAtMost(steps[k], call)
    requires forall k :: 0 <= k < |states| ==> Holders(states[k].tables, owner, period) <= 1
    ensures Spent(states[i].tables, owner, period) < limit + call
    ensures Holders(states[i].tables, owner, period) == 1 ==> Spent(states[i].tables, owner, period) <= limit
  {
    OvershootBound(p, steps, states, i, owner, period, limit, 1, call);
    Scaled(1 - Holders(states[i].tables, owner, period), 1, call - 1);
  }
}
