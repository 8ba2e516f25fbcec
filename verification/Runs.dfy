/** Every interleaving of workers, submitters, cancels, reapers and retries over the shared tables.
    One step is one committed transaction; a running job's worker also keeps its guard in memory. */
module Runs {
  import opened Options
  import opened Ledger

  /** A guard lives as long as its job's claim: it is dropped when the job leaves running. */
  datatype Guard = Guard(owner: string, period: int, limit: Option<nat>, reserved: nat, inFlight: bool)

  /** `picked`: what each worker's SELECT returned and its UPDATE has not used yet. */
  datatype System = System(tables: Tables, guards: map<JobId, Guard>, picked: map<nat, JobId>)

  datatype Step =
    | Submit(id: JobId, owner: string, metered: bool, key: Option<string>, hash: string, period: int, createdAt: int)
    | Select(worker: nat, candidate: JobId)
    | Claim(worker: nat, now: int)
    | BeforeCall(id: JobId)
    | AfterCall(id: JobId, tokens: nat)
    | Cancel(id: JobId)
    | Finish(id: JobId, status: Status, kind: string)
    | Interrupt(id: JobId)
    | RetryLater(id: JobId, runAfter: int)
    | Reap(stale: seq<JobId>)
    | RetryFailed(id: JobId, owner: string, period: int)

  /** A step's own demands: a new id, a call that alternates with its report, a terminal outcome. */
  predicate Possible(s: System, step: Step) {
    match step
    case Submit(id, _, _, _, _, _, _) => id !in s.tables.jobs
    case BeforeCall(id) => id in s.guards && !s.guards[id].inFlight
    case AfterCall(id, _) => id in s.guards && s.guards[id].inFlight
    case Finish(_, status, _) => status.Terminal()
    case _ => true
  }

  function NewGuard(p: Policy, job: Job): Guard {
    Guard(job.owner, if job.period.Some? then job.period.value else 0, p.LimitFor(job.owner), job.reserved, false)
  }

  function RetryReservation(p: Policy, t: Tables, id: JobId, owner: string, period: int): Option<Reservation> {
    ReservationOf(p, owner, id in t.jobs && t.jobs[id].metered, period)
  }

  function Next(p: Policy, s: System, step: Step): System
    requires Possible(s, step)
  {
    var t := s.tables;
    match step
    case Submit(id, owner, metered, key, hash, period, createdAt) =>
      var r := ReservationOf(p, owner, metered, period);
      s.(tables := AfterCreate(t, id, NewJob(owner, metered, key, hash, r, createdAt), r))
    case Select(worker, candidate) => s.(picked := s.picked[worker := candidate])
    case Claim(worker, now) =>
      if worker !in s.picked then s
      else
        var id := s.picked[worker];
        var guards := if ClaimWins(t, id, now) && t.jobs[id].metered
                      then s.guards[id := NewGuard(p, t.jobs[id])] else s.guards;
        System(AfterClaim(t, id, now), guards, s.picked - {worker})
    case BeforeCall(id) =>
      var g := s.guards[id];
      if g.limit.None? || g.reserved > 0 then s.(guards := s.guards[id := g.(inFlight := true)])
      else
        var amount := p.ReservationFor(g.limit);
        if Fits(t, g.owner, g.period, amount, g.limit.value) then
          s.(tables := Extended(t, id, g.owner, g.period, amount, g.limit.value),
             guards := s.guards[id := g.(reserved := g.reserved + amount, inFlight := true)])
        else s
    case AfterCall(id, tokens) =>
      var g := s.guards[id];
      var consumed := Min(tokens, g.reserved);
      s.(tables := Recorded(t, id, g.owner, g.period, tokens, consumed),
         guards := s.guards[id := g.(reserved := g.reserved - consumed, inFlight := false)])
    case Cancel(id) => s.(tables := AfterCancel(t, id))
    case Finish(id, status, kind) => s.(tables := AfterFinish(t, id, status, kind), guards := s.guards - {id})
    case Interrupt(id) => s.(tables := AfterInterrupt(t, id), guards := s.guards - {id})
    case RetryLater(id, runAfter) => s.(tables := AfterScheduleRetry(t, id, runAfter), guards := s.guards - {id})
    case Reap(stale) => s.(tables := AfterReap(t, stale), guards := s.guards - (set i | i in stale))
    case RetryFailed(id, owner, period) =>
      s.(tables := AfterRetryFailed(t, id, owner, RetryReservation(p, t, id, owner, period)))
  }

  const EMPTY := System(Tables(map[], map[], []), map[], map[])

  /** `states` is what the steps of one run produce, from empty tables. */
  ghost predicate IsRun(p: Policy, steps: seq<Step>, states: seq<System>) {
    && |states| == |steps| + 1 && states[0] == EMPTY
    && forall i :: 0 <= i < |steps| ==> Possible(states[i], steps[i]) && states[i + 1] == Next(p, states[i], steps[i])
  }

  // ------------------------------------------------------------------ sums over the job table

  ghost function Sum(jobs: map<JobId, Job>, w: Job -> nat): nat {
    if jobs == map[] then 0
    else
      var id: nat :| id in jobs;
      w(jobs[id]) + Sum(jobs - {id}, w)
  }

  lemma {:induction false} SumTakeOut(jobs: map<JobId, Job>, w: Job -> nat, id: JobId)
    requires id in jobs
    ensures Sum(jobs, w) == w(jobs[id]) + Sum(jobs - {id}, w)
    decreases |jobs|
  {
    var first: nat :| first in jobs && Sum(jobs, w) == w(jobs[first]) + Sum(jobs - {first}, w);
    if first != id {
      SumTakeOut(jobs - {first}, w, id);
      SumTakeOut(jobs - {id}, w, first);
      assert jobs - {first} - {id} == jobs - {id} - {first};
    }
  }

  lemma SumPut(jobs: map<JobId, Job>, w: Job -> nat, id: JobId, job: Job)
    ensures Sum(jobs[id := job], w) == Sum(jobs - {id}, w) + w(job)
    ensures id in jobs ==> Sum(jobs, w) == Sum(jobs - {id}, w) + w(jobs[id])
    ensures id !in jobs ==> Sum(jobs, w) == Sum(jobs - {id}, w)
  {
    SumTakeOut(jobs[id := job], w, id);
    assert jobs[id := job] - {id} == jobs - {id};
    if id in jobs { SumTakeOut(jobs, w, id); } else { assert jobs - {id} == jobs; }
  }

  /** The tokens a job holds against one ledger row. */
  function HeldFrom(owner: string, period: int): Job -> nat {
    (j: Job) => if j.owner == owner && j.period == Some(period) then j.reserved else 0
  }

  /** Whether a job holds anything against one ledger row. */
  function HoldsFrom(owner: string, period: int): Job -> nat {
    (j: Job) => if j.owner == owner && j.period == Some(period) && j.reserved > 0 then 1 else 0
  }

  function RowOf(t: Tables, owner: string, period: int): Row {
    if (owner, period) in t.ledger then t.ledger[(owner, period)] else Row(0, 0)
  }
}
