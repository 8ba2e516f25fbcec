/** The shared tables: jobs, the per-principal token ledger and the event log, and what each
    transaction on them does. A rolled back transaction leaves the tables as they were.
    Models src/autoswe/budget.py and src/autoswe/repository.py. */
module Ledger {
  import opened Options

  type JobId = nat

  datatype Status = Queued | Running | Succeeded | Failed | Cancelled {
    predicate Terminal() { Succeeded? || Failed? || Cancelled? }
  }

  /** The columns of a job row that the queue and the budget use. `metered` is a property of the
      job's provider; `period` is `budget_period_start`,
      `hash` the submission's `request_hash`. */
  datatype Job = Job(
    owner: string, metered: bool, key: Option<string>, hash: string, status: Status, period: Option<int>,
    reserved: nat, cancelRequested: bool, createdAt: int, runAfter: Option<int>, retries: nat)

  datatype Row = Row(used: nat, reserved: nat)

  datatype Event = Event(job: JobId, kind: string)

  datatype Tables = Tables(jobs: map<JobId, Job>, ledger: map<(string, int), Row>, events: seq<Event>)

  // ------------------------------------------------------------------ policy

  datatype Policy = Policy(limits: map<string, nat>, defaultLimit: Option<nat>, reservation: nat) {
    function LimitFor(principal: string): Option<nat> {
      if principal in limits then Some(limits[principal]) else defaultLimit
    }

    /** At least one token, so a zero budget refuses every metered job. */
    function ReservationFor(limit: Option<nat>): nat {
      match limit
      case None => 0
      case Some(l) => Max(1, Min(reservation, l))
    }
  }

  function Max(a: nat, b: nat): nat { if a < b then b else a }

  function Min(a: nat, b: nat): nat { if a < b then a else b }

  datatype Reservation = Reservation(period: int, amount: nat, limit: Option<nat>)

  /** What the API passes to `create` and `retry_failed` for a job of this provider. */
  function ReservationOf(p: Policy, owner: string, metered: bool, period: int): Option<Reservation> {
    if metered then Some(Reservation(period, p.ReservationFor(p.LimitFor(owner)), p.LimitFor(owner))) else None
  }

  // ------------------------------------------------------------------ the ledger

  /** `column - amount`, never below zero. */
  function Decrement(column: nat, amount: nat): nat {
    if column >= amount then column - amount else 0
  }

  function Ensure(t: Tables, owner: string, period: int): Tables {
    if (owner, period) in t.ledger then t else t.(ledger := t.ledger[(owner, period) := Row(0, 0)])
  }

  predicate Fits(t: Tables, owner: string, period: int, amount: nat, limit: nat) {
    (owner, period) in t.ledger &&
    t.ledger[(owner, period)].used + t.ledger[(owner, period)].reserved + amount <= limit
  }

  function AddReserved(t: Tables, owner: string, period: int, amount: nat): Tables
    requires (owner, period) in t.ledger
  {
    var row := t.ledger[(owner, period)];
    t.(ledger := t.ledger[(owner, period) := row.(reserved := row.reserved + amount)])
  }

  function SetJob(t: Tables, id: JobId, job: Job): Tables {
    t.(jobs := t.jobs[id := job])
  }

  function Log(t: Tables, id: JobId, kind: string): Tables {
    t.(events := t.events + [Event(id, kind)])
  }

  /** Top up a running job's reservation, or nothing at all. */
  function Extended(t: Tables, id: JobId, owner: string, period: int, amount: nat, limit: nat): Tables {
    if !Fits(t, owner, period, amount, limit) then t
    else
      var t' := AddReserved(t, owner, period, amount);
      if id in t'.jobs then SetJob(t', id, t'.jobs[id].(reserved := t'.jobs[id].reserved + amount)) else t'
  }

  /** One call's usage, converting `consumed` reserved tokens. */
  function Recorded(t: Tables, id: JobId, owner: string, period: int, tokens: nat, consumed: nat): Tables {
    var t' :=
      if (owner, period) in t.ledger then
        var row := t.ledger[(owner, period)];
        t.(ledger := t.ledger[(owner, period) := Row(row.used + tokens, Decrement(row.reserved, consumed))])
      else t;
    if consumed > 0 && id in t'.jobs then
      SetJob(t', id, t'.jobs[id].(reserved := Decrement(t'.jobs[id].reserved, consumed)))
    else t'
  }

  /** Give back what a job still holds. */
  function Released(t: Tables, id: JobId): Tables {
    if id !in t.jobs || t.jobs[id].reserved == 0 || t.jobs[id].period.None? then t
    else
      var job := t.jobs[id];
      var row := (job.owner, job.period.value);
      var t' :=
        if row in t.ledger then
          t.(ledger := t.ledger[row := t.ledger[row].(reserved := Decrement(t.ledger[row].reserved, job.reserved))])
        else t;
      SetJob(t', id, job.(reserved := 0))
  }

  // ------------------------------------------------------------------ jobs

  datatype Creation = Created | Refused | Duplicate

  predicate KeyTaken(t: Tables, owner: string, key: Option<string>) {
    key.Some? && exists id :: id in t.jobs && t.jobs[id].owner == owner && t.jobs[id].key == key
  }

  /** The reservation half of a transaction; None when it does not fit. */
  function Reserve(t: Tables, owner: string, r: Option<Reservation>): Option<Tables> {
    if r.None? then Some(t)
    else
      var t' := Ensure(t, owner, r.value.period);
      if r.value.limit.None? then Some(t')
      else if Fits(t', owner, r.value.period, r.value.amount, r.value.limit.value)
      then Some(AddReserved(t', owner, r.value.period, r.value.amount))
      else None
  }

  function HeldUnder(r: Option<Reservation>): nat {
    if r.Some? && r.value.limit.Some? then r.value.amount else 0
  }

  function PeriodOf(r: Option<Reservation>): Option<int> {
    if r.Some? then Some(r.value.period) else None
  }

  function NewJob(owner: string, metered: bool, key: Option<string>, hash: string, r: Option<Reservation>,
                  createdAt: int): Job {
    Job(owner, metered, key, hash, Queued, PeriodOf(r), HeldUnder(r), false, createdAt, None, 0)
  }

  function CreationOf(t: Tables, owner: string, key: Option<string>, r: Option<Reservation>): Creation {
    if Reserve(t, owner, r).None? then Refused
    else if KeyTaken(t, owner, key) then Duplicate
    else Created
  }

  function AfterCreate(t: Tables, id: JobId, job: Job, r: Option<Reservation>): Tables {
    if CreationOf(t, job.owner, job.key, r).Created?
    then Log(SetJob(Reserve(t, job.owner, r).value, id, job), id, "job.queued")
    else t
  }

  predicate Is(t: Tables, id: JobId, status: Status) {
    id in t.jobs && t.jobs[id].status == status
  }

  predicate Due(job: Job, now: int) {
    job.status.Queued? && (job.runAfter.None? || job.runAfter.value <= now)
  }

  predicate ClaimWins(t: Tables, id: JobId, now: int) {
    id in t.jobs && Due(t.jobs[id], now)
  }

  function AfterClaim(t: Tables, id: JobId, now: int): Tables {
    if ClaimWins(t, id, now) then SetJob(t, id, t.jobs[id].(status := Running)) else t
  }

  function AfterCancel(t: Tables, id: JobId): Tables {
    if Is(t, id, Queued) then
      Log(Released(SetJob(t, id, t.jobs[id].(status := Cancelled)), id), id, "job.cancelled")
    else if Is(t, id, Running) && !t.jobs[id].cancelRequested then
      Log(SetJob(t, id, t.jobs[id].(cancelRequested := true)), id, "job.cancel_requested")
    else t
  }

  function AfterFinish(t: Tables, id: JobId, status: Status, kind: string): Tables {
    if Is(t, id, Running) then Log(Released(SetJob(t, id, t.jobs[id].(status := status)), id), id, kind) else t
  }

  /** `reset_for_retry`: the job keeps its reservation while it waits. */
  function AfterInterrupt(t: Tables, id: JobId): Tables {
    if Is(t, id, Running) then
      Log(SetJob(t, id, t.jobs[id].(status := Queued, runAfter := None)), id, "job.requeued")
    else t
  }

  function AfterScheduleRetry(t: Tables, id: JobId, runAfter: int): Tables {
    if Is(t, id, Running) then
      var job := t.jobs[id];
      Log(SetJob(t, id, job.(status := Queued, retries := job.retries + 1, runAfter := Some(runAfter))), id,
          "job.retry_scheduled")
    else t
  }

  function RetriedJob(job: Job, r: Option<Reservation>): Job {
    var j := job.(status := Queued, retries := 0, runAfter := None);
    if r.Some? then j.(period := Some(r.value.period), reserved := HeldUnder(r)) else j
  }

  predicate RetryWins(t: Tables, id: JobId, owner: string, r: Option<Reservation>) {
    Is(t, id, Failed) && t.jobs[id].owner == owner && Reserve(t, owner, r).Some?
  }

  function AfterRetryFailed(t: Tables, id: JobId, owner: string, r: Option<Reservation>): Tables {
    if RetryWins(t, id, owner, r)
    then Log(SetJob(Reserve(t, owner, r).value, id, RetriedJob(t.jobs[id], r)), id, "job.retried")
    else t
  }

  /** The reaper's loop over the ids it selected. The event is written whatever the row count. */
  function AfterReap(t: Tables, stale: seq<JobId>): Tables {
    if stale == [] then t
    else
      var t' := AfterReap(t, stale[..|stale| - 1]);
      var id := stale[|stale| - 1];
      var failed := if Is(t', id, Running) then Released(SetJob(t', id, t'.jobs[id].(status := Failed)), id) else t';
      Log(failed, id, "job.failed")
  }
}
