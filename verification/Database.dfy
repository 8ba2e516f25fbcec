/** The transactions as the code runs them: statement by statement on the shared tables and the marks of
    each job's stages, with a rollback where it rolls back. Models `UsageRepository` and `BudgetGuard` of
    src/autoswe/budget.py and `JobRepository` of src/autoswe/repository.py. */
module Database {
  import opened Options
  import opened Ledger
  import C = Checkpoints

  /** The status of every stage of every job. */
  type Marks = map<JobId, C.Statuses>

  const ALL_SKIPPED: C.Statuses := [C.Skipped, C.Skipped, C.Skipped, C.Skipped, C.Skipped]

  function Marked(marks: Marks, id: JobId, change: C.Statuses -> C.Statuses): Marks {
    if id in marks then marks[id := change(marks[id])] else marks
  }

  /** `skip_pending_stages`. */
  function SkipUnfinished(status: C.Statuses): C.Statuses {
    seq(5, i requires 0 <= i < 5 => if status[i].Pending? || status[i].Running? then C.Skipped else status[i])
  }

  function AllUnfinishedSkipped(marks: Marks, ids: seq<JobId>): Marks {
    if ids == [] then marks
    else Marked(AllUnfinishedSkipped(marks, ids[..|ids| - 1]), ids[|ids| - 1], SkipUnfinished)
  }

  /** Exactly the unfinished stages of exactly the given jobs are skipped. */
  lemma {:induction false} SkipsExactly(marks: Marks, ids: seq<JobId>, id: JobId, i: nat)
    requires id in marks && i < 5
    ensures id in AllUnfinishedSkipped(marks, ids)
    ensures var was, now := marks[id][i], AllUnfinishedSkipped(marks, ids)[id][i];
      now == if id in ids && (was == C.Pending || was == C.Running) then C.Skipped else was
  {
    if ids != [] {
      SkipsExactly(marks, ids[..|ids| - 1], id, i);
      assert ids == ids[..|ids| - 1] + [ids[|ids| - 1]];
    }
  }

  class Session {
    var jobs: map<JobId, Job>
    var ledger: map<(string, int), Row>
    var events: seq<Event>
    var marks: Marks

    function Now(): Tables
      reads this`jobs, this`ledger, this`events
    {
      Tables(jobs, ledger, events)
    }

    constructor (t: Tables, marks: Marks)
      ensures Now() == t && this.marks == marks
    {
      jobs, ledger, events := t.jobs, t.ledger, t.events;
      this.marks := marks;
    }

    /** Back to what the transaction began with. */
    method Rollback(t: Tables)
      modifies this`jobs, this`ledger, this`events
      ensures Now() == t
    {
      jobs, ledger, events := t.jobs, t.ledger, t.events;
    }

    // ---------------------------------------------------------------- UsageRepository

    method EnsureRow(owner: string, period: int)
      modifies this`ledger
      ensures Now() == Ensure(old(Now()), owner, period)
    {
      if (owner, period) !in ledger { ledger := ledger[(owner, period) := Row(0, 0)]; }
    }

    /** The compare-and-set; true when its one row matched. */
    method TryReserve(owner: string, period: int, amount: nat, limit: nat) returns (ok: bool)
      modifies this`ledger
      ensures ok <==> Fits(old(Now()), owner, period, amount, limit)
      ensures Now() == if ok then AddReserved(old(Now()), owner, period, amount) else old(Now())
    {
      if (owner, period) !in ledger { return false; }
      var row := ledger[(owner, period)];
      if row.used + row.reserved + amount > limit { return false; }
      ledger := ledger[(owner, period) := row.(reserved := row.reserved + amount)];
      return true;
    }

    method Extend(id: JobId, owner: string, period: int, amount: nat, limit: nat) returns (ok: bool)
      modifies this`jobs, this`ledger
      ensures ok <==> Fits(old(Now()), owner, period, amount, limit)
      ensures Now() == Extended(old(Now()), id, owner, period, amount, limit)
    {
      ok := TryReserve(owner, period, amount, limit);
      if !ok { return; }
      if id in jobs { jobs := jobs[id := jobs[id].(reserved := jobs[id].reserved + amount)]; }
    }

    method Record(id: JobId, owner: string, period: int, tokens: nat, consumed: nat)
      modifies this`jobs, this`ledger
      ensures Now() == Recorded(old(Now()), id, owner, period, tokens, consumed)
    {
      if (owner, period) in ledger {
        var row := ledger[(owner, period)];
        ledger := ledger[(owner, period) := Row(row.used + tokens, Decrement(row.reserved, consumed))];
      }
      if consumed > 0 && id in jobs {
        jobs := jobs[id := jobs[id].(reserved := Decrement(jobs[id].reserved, consumed))];
      }
    }

    method Release(id: JobId)
      modifies this`jobs, this`ledger
      ensures Now() == Released(old(Now()), id)
    {
      if id !in jobs { return; }
      var held := jobs[id];
      if held.reserved == 0 || held.period.None? { return; }
      var key := (held.owner, held.period.value);
      if key in ledger {
        ledger := ledger[key := ledger[key].(reserved := Decrement(ledger[key].reserved, held.reserved))];
      }
      jobs := jobs[id := held.(reserved := 0)];
    }

    // ---------------------------------------------------------------- JobRepository

    method AddEvent(id: JobId, kind: string)
      modifies this`events
      ensures Now() == Log(old(Now()), id, kind)
    {
      events := events + [Event(id, kind)];
    }

    /** The guarded status update every transition starts with; true when its row matched. */
    method CompareAndSet(id: JobId, from: Status, job: Job) returns (ok: bool)
      modifies this`jobs
      ensures ok <==> Is(old(Now()), id, from)
      ensures Now() == if ok then SetJob(old(Now()), id, job) else old(Now())
    {
      ok := id in jobs && jobs[id].status == from;
      if ok { jobs := jobs[id := job]; }
    }

    method TakeReservation(owner: string, r: Option<Reservation>) returns (ok: bool)
      modifies this`ledger
      ensures ok <==> Reserve(old(Now()), owner, r).Some?
      ensures ok ==> Now() == Reserve(old(Now()), owner, r).value
    {
      if r.None? { return true; }
      EnsureRow(owner, r.value.period);
      if r.value.limit.None? { return true; }
      ok := TryReserve(owner, r.value.period, r.value.amount, r.value.limit.value);
    }

    /** A refused reservation, or a lost race for the key, leaves nothing behind. */
    method Create(id: JobId, owner: string, metered: bool, key: Option<string>, hash: string, r: Option<Reservation>,
                  createdAt: int)
      returns (outcome: Creation)
      requires id !in jobs
      modifies this
      ensures outcome == CreationOf(old(Now()), owner, key, r)
      ensures Now() == AfterCreate(old(Now()), id, NewJob(owner, metered, key, hash, r, createdAt), r)
      ensures marks == if outcome.Created? then old(marks)[id := C.ALL_PENDING] else old(marks)
      ensures outcome.Created? ==> id in marks && forall i :: 0 <= i < 5 ==> marks[id][i] == C.Pending
    {
      var begin := Now();
      var ok := TakeReservation(owner, r);
      if !ok {
        Rollback(begin);
        return Refused;
      }
      var job := NewJob(owner, metered, key, hash, r, createdAt);
      if KeyTaken(Now(), owner, key) {
        Rollback(begin);
        return Duplicate;
      }
      jobs, marks := jobs[id := job], marks[id := C.ALL_PENDING];
      AddEvent(id, "job.queued");
      return Created;
    }

    method Claim(candidate: JobId, now: int) returns (won: bool)
      modifies this`jobs
      ensures won <==> ClaimWins(old(Now()), candidate, now)
      ensures Now() == AfterClaim(old(Now()), candidate, now)
    {
      won := candidate in jobs && Due(jobs[candidate], now);
      if won { jobs := jobs[candidate := jobs[candidate].(status := Running)]; }
    }

    /** Says what happened: a queued job is cancelled, a running one asked to stop (once or again), and
        of a finished or unknown one there is nothing to say. */
    method RequestCancel(id: JobId) returns (what: Option<string>)
      modifies this
      ensures Now() == AfterCancel(old(Now()), id)
      ensures marks == if Is(old(Now()), id, Queued) then Marked(old(marks), id, _ => ALL_SKIPPED) else old(marks)
      ensures Is(old(Now()), id, Queued) && id in marks ==> forall i :: 0 <= i < 5 ==> marks[id][i] == C.Skipped
      ensures what == Some("cancelled") <==> Is(old(Now()), id, Queued)
      ensures what == Some("cancel_requested") <==> Is(old(Now()), id, Running)
      ensures what == None <==> id !in old(jobs) || old(jobs)[id].status.Terminal()
    {
      if id !in jobs { return None; }
      var queued := CompareAndSet(id, Queued, jobs[id].(status := Cancelled));
      if queued {
        Release(id);
        marks := Marked(marks, id, _ => ALL_SKIPPED);
        AddEvent(id, "job.cancelled");
        return Some("cancelled");
      }
      if jobs[id].status == Running && !jobs[id].cancelRequested {
        jobs := jobs[id := jobs[id].(cancelRequested := true)];
        AddEvent(id, "job.cancel_requested");
        return Some("cancel_requested");
      }
      return if jobs[id].status == Running then Some("cancel_requested") else None;
    }

    method Finish(id: JobId, status: Status, kind: string) returns (done: bool)
      modifies this`jobs, this`ledger, this`events
      ensures done <==> Is(old(Now()), id, Running)
      ensures Now() == AfterFinish(old(Now()), id, status, kind)
    {
      if id !in jobs { return false; }
      done := CompareAndSet(id, Running, jobs[id].(status := status));
      if !done { return; }
      Release(id);
      AddEvent(id, kind);
    }

    /** `_requeue`, as far as the job's row and its stages go; `Checkpoints` has the rest. */
    method Requeue(id: JobId, from: Status, job: Job) returns (ok: bool)
      modifies this`jobs, this`marks
      ensures ok <==> Is(old(Now()), id, from)
      ensures Now() == if ok then SetJob(old(Now()), id, job) else old(Now())
      ensures marks == if ok then Marked(old(marks), id, C.Reset) else old(marks)
    {
      ok := CompareAndSet(id, from, job);
      if ok { marks := Marked(marks, id, C.Reset); }
    }

    method ResetForRetry(id: JobId) returns (done: bool)
      modifies this
      ensures done <==> Is(old(Now()), id, Running)
      ensures Now() == AfterInterrupt(old(Now()), id)
      ensures marks == if done then Marked(old(marks), id, C.Reset) else old(marks)
    {
      if id !in jobs { return false; }
      done := Requeue(id, Running, jobs[id].(status := Queued, runAfter := None));
      if done { AddEvent(id, "job.requeued"); }
    }

    method ScheduleRetry(id: JobId, runAfter: int) returns (retries: Option<nat>)
      modifies this
      ensures retries.Some? <==> Is(old(Now()), id, Running)
      ensures retries.Some? ==> retries.value == old(jobs)[id].retries + 1
      ensures Now() == AfterScheduleRetry(old(Now()), id, runAfter)
      ensures marks == if retries.Some? then Marked(old(marks), id, C.Reset) else old(marks)
    {
      if id !in jobs { return None; }
      var job := jobs[id];
      var moved := Requeue(id, Running,
        job.(status := Queued, retries := job.retries + 1, runAfter := Some(runAfter)));
      if !moved { return None; }
      retries := Some(jobs[id].retries);
      AddEvent(id, "job.retry_scheduled");
    }

    /** The status moves first; a reservation that does not fit undoes that too. */
    method RetryFailed(id: JobId, owner: string, r: Option<Reservation>) returns (done: bool)
      modifies this
      ensures done <==> RetryWins(old(Now()), id, owner, r)
      ensures Now() == AfterRetryFailed(old(Now()), id, owner, r)
      ensures marks == if done then Marked(old(marks), id, C.Reset) else old(marks)
    {
      if id !in jobs || jobs[id].owner != owner { return false; }
      var begin, was := Now(), marks;
      var moved := Requeue(id, Failed, RetriedJob(jobs[id], r));
      if !moved { return false; }
      var ok := TakeReservation(owner, r);
      if !ok {
        Rollback(begin);
        marks := was;
        return false;
      }
      AddEvent(id, "job.retried");
      return true;
    }

    method FailStale(stale: seq<JobId>)
      modifies this
      ensures Now() == AfterReap(old(Now()), stale) && marks == AllUnfinishedSkipped(old(marks), stale)
    {
      for i := 0 to |stale|
        invariant Now() == AfterReap(old(Now()), stale[..i]) && marks == old(marks)
      {
        var id := stale[i];
        assert stale[..i + 1][..i] == stale[..i];
        if id in jobs {
          var reaped := CompareAndSet(id, Running, jobs[id].(status := Failed));
          if reaped { Release(id); }
        }
        AddEvent(id, "job.failed");
      }
      assert stale[..|stale|] == stale;
      SkipPending(stale);
    }

    method SkipPending(ids: seq<JobId>)
      modifies this`marks
      ensures marks == AllUnfinishedSkipped(old(marks), ids)
    {
      for i := 0 to |ids|
        invariant marks == AllUnfinishedSkipped(old(marks), ids[..i])
      {
        assert ids[..i + 1][..i] == ids[..i];
        marks := Marked(marks, ids[i], SkipUnfinished);
      }
      assert ids[..|ids|] == ids;
    }
  }

  /** One running job's view of its principal's budget. */
  class BudgetGuard {
    const policy: Policy
    const job: JobId
    const principal: string
    const period: int
    const limit: Option<nat>
    var reserved: nat

    constructor (policy: Policy, job: JobId, principal: string, period: int, reserved: nat)
      ensures this.policy == policy && this.job == job && this.principal == principal && this.period == period
      ensures this.limit == policy.LimitFor(principal) && this.reserved == reserved
    {
      this.policy, this.job, this.principal, this.period := policy, job, principal, period;
      this.limit, this.reserved := policy.LimitFor(principal), reserved;
    }

    /** False is TokenBudgetExceededError: the call is not made. */
    method BeforeCall(db: Session) returns (ok: bool)
      modifies this, db`jobs, db`ledger
      ensures limit.None? || old(reserved) > 0 ==> ok && reserved == old(reserved) && db.Now() == old(db.Now())
      ensures limit.Some? && old(reserved) == 0 ==>
        var amount := policy.ReservationFor(limit);
        && (ok <==> Fits(old(db.Now()), principal, period, amount, limit.value))
        && reserved == (if ok then amount else 0)
        && db.Now() == Extended(old(db.Now()), job, principal, period, amount, limit.value)
      ensures ok && limit.Some? ==> reserved > 0
    {
      if limit.None? || reserved > 0 { return true; }
      var amount := policy.ReservationFor(limit);
      ok := db.Extend(job, principal, period, amount, limit.value);
      if ok { reserved := reserved + amount; }
    }

    method AfterCall(db: Session, tokens: nat)
      modifies this, db`jobs, db`ledger
      ensures reserved == old(reserved) - Min(tokens, old(reserved))
      ensures db.Now() == Recorded(old(db.Now()), job, principal, period, tokens, Min(tokens, old(reserved)))
    {
      var consumed := Min(tokens, reserved);
      reserved := reserved - consumed;
      db.Record(job, principal, period, tokens, consumed);
    }
  }
}
