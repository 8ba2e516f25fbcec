/** No reservation leaks: the ledger, the job rows and the workers' guards agree after every step. */
module Conservation {
  import opened Options
  import opened Ledger
  import opened Runs

  /** Each ledger row reserves exactly what the jobs of its principal and period hold. */
  ghost predicate Conserved(t: Tables) {
    forall owner, period :: RowOf(t, owner, period).reserved == Sum(t.jobs, HeldFrom(owner, period))
  }

  ghost predicate JobOk(p: Policy, t: Tables, job: Job) {
    && (job.status.Terminal() ==> job.reserved == 0)
    && (job.metered ==> job.period.Some? && (job.owner, job.period.value) in t.ledger)
    && (job.reserved > 0 ==> job.metered && p.LimitFor(job.owner).Some?)
  }

  ghost predicate TablesOk(p: Policy, t: Tables) {
    Conserved(t) && forall id :: id in t.jobs ==> JobOk(p, t, t.jobs[id])
  }

  /** A running job's guard agrees with its row, and covers the call it has in flight. */
  ghost predicate GuardOk(p: Policy, t: Tables, id: JobId, g: Guard) {
    && Is(t, id, Running) && t.jobs[id].metered
    && g.owner == t.jobs[id].owner && Some(g.period) == t.jobs[id].period
    && g.limit == p.LimitFor(g.owner) && g.reserved == t.jobs[id].reserved
    && (g.inFlight && g.limit.Some? ==> g.reserved > 0)
  }

  ghost predicate Inv(p: Policy, s: System) {
    && TablesOk(p, s.tables)
    && (forall id :: id in s.guards ==> GuardOk(p, s.tables, id, s.guards[id]))
    && (forall id :: Is(s.tables, id, Running) && s.tables.jobs[id].metered ==> id in s.guards)
  }

  /** One job row and the ledger rows change by the same amounts. */
  ghost predicate Balanced(t: Tables, t': Tables, id: JobId, job: Job) {
    && t'.jobs == t.jobs[id := job]
    && forall owner, period ::
        RowOf(t', owner, period).reserved + (if id in t.jobs then HeldFrom(owner, period)(t.jobs[id]) else 0)
        == RowOf(t, owner, period).reserved + HeldFrom(owner, period)(job)
  }

  lemma BalancedConserves(t: Tables, t': Tables, id: JobId, job: Job)
    requires Conserved(t) && Balanced(t, t', id, job)
    ensures Conserved(t')
  {
    forall owner, period
      ensures RowOf(t', owner, period).reserved == Sum(t'.jobs, HeldFrom(owner, period))
    {
      SumPut(t.jobs, HeldFrom(owner, period), id, job);
    }
  }

  lemma BalancedKeepsOk(p: Policy, t: Tables, t': Tables, id: JobId, job: Job)
    requires TablesOk(p, t) && Balanced(t, t', id, job)
    requires t.ledger.Keys <= t'.ledger.Keys && JobOk(p, t', job)
    ensures TablesOk(p, t')
  {
    BalancedConserves(t, t', id, job);
  }

  /** The ledger row covers what any one of its jobs holds, so no decrement is ever clamped. */
  lemma RowCoversJob(p: Policy, t: Tables, id: JobId)
    requires TablesOk(p, t) && id in t.jobs && t.jobs[id].period.Some?
    ensures t.jobs[id].reserved <= RowOf(t, t.jobs[id].owner, t.jobs[id].period.value).reserved
  {
    var w := HeldFrom(t.jobs[id].owner, t.jobs[id].period.value);
    SumTakeOut(t.jobs, w, id);
  }

  // ------------------------------------------------------------------ one transaction at a time

  /** A terminal job may still hold tokens just before its release: `gone` is the status it moves to. */
  lemma ReleaseKeepsOk(p: Policy, t: Tables, id: JobId, status: Status)
    requires TablesOk(p, t) && id in t.jobs
    ensures var t' := Released(SetJob(t, id, t.jobs[id].(status := status)), id);
      && TablesOk(p, t') && t'.jobs == t.jobs[id := t.jobs[id].(status := status, reserved := 0)]
      && t'.ledger.Keys == t.ledger.Keys
  {
    var job := t.jobs[id];
    var t' := Released(SetJob(t, id, job.(status := status)), id);
    if job.reserved > 0 { RowCoversJob(p, t, id); }
    BalancedKeepsOk(p, t, t', id, job.(status := status, reserved := 0));
  }

  lemma ReserveKeepsOk(p: Policy, t: Tables, id: JobId, job: Job, r: Option<Reservation>)
    requires TablesOk(p, t) && Reserve(t, job.owner, r).Some? && !job.status.Terminal()
    requires id in t.jobs ==> t.jobs[id].reserved == 0
    requires r.Some? ==> job.metered && job.period == Some(r.value.period) && job.reserved == HeldUnder(r) &&
                         r.value.limit == p.LimitFor(job.owner)
    requires r.None? ==> !job.metered && job.reserved == 0
    ensures TablesOk(p, SetJob(Reserve(t, job.owner, r).value, id, job))
  {
    var t' := SetJob(Reserve(t, job.owner, r).value, id, job);
    BalancedKeepsOk(p, t, t', id, job);
  }

  lemma LogKeepsOk(p: Policy, t: Tables, id: JobId, kind: string)
    requires TablesOk(p, t)
    ensures TablesOk(p, Log(t, id, kind))
  {
    var t' := Log(t, id, kind);
    assert forall owner, period :: RowOf(t', owner, period) == RowOf(t, owner, period);
  }

  lemma RestatusKeepsOk(p: Policy, t: Tables, id: JobId, job: Job)
    requires TablesOk(p, t) && id in t.jobs && !job.status.Terminal()
    requires job.owner == t.jobs[id].owner && job.metered == t.jobs[id].metered
    requires job.period == t.jobs[id].period && job.reserved == t.jobs[id].reserved
    ensures TablesOk(p, SetJob(t, id, job))
  {
    BalancedKeepsOk(p, t, SetJob(t, id, job), id, job);
  }

  lemma ExtendKeepsOk(p: Policy, t: Tables, id: JobId, amount: nat, limit: nat)
    requires TablesOk(p, t) && id in t.jobs && t.jobs[id].metered && !t.jobs[id].status.Terminal()
    requires p.LimitFor(t.jobs[id].owner) == Some(limit)
    requires Fits(t, t.jobs[id].owner, t.jobs[id].period.value, amount, limit)
    ensures TablesOk(p, Extended(t, id, t.jobs[id].owner, t.jobs[id].period.value, amount, limit))
  {
    var job := t.jobs[id];
    BalancedKeepsOk(p, t, Extended(t, id, job.owner, job.period.value, amount, limit), id,
                    job.(reserved := job.reserved + amount));
  }

  lemma RecordKeepsOk(p: Policy, t: Tables, id: JobId, tokens: nat, consumed: nat)
    requires TablesOk(p, t) && id in t.jobs && t.jobs[id].metered && consumed <= t.jobs[id].reserved
    ensures TablesOk(p, Recorded(t, id, t.jobs[id].owner, t.jobs[id].period.value, tokens, consumed))
  {
    var job := t.jobs[id];
    RowCoversJob(p, t, id);
    var t' := Recorded(t, id, job.owner, job.period.value, tokens, consumed);
    if consumed == 0 { assert t.jobs[id := job] == t.jobs; }
    BalancedKeepsOk(p, t, t', id, job.(reserved := job.reserved - consumed));
  }

  // ------------------------------------------------------------------ every step

  /** What the guards need from the jobs table to stay right: other jobs keep their rows. */
  ghost predicate OthersSame(t: Tables, t': Tables, ids: set<JobId>) {
    forall id :: id !in ids ==> (id in t.jobs <==> id in t'.jobs) && (id in t.jobs ==> t.jobs[id] == t'.jobs[id])
  }

  lemma GuardsSurvive(p: Policy, s: System, s': System, ids: set<JobId>)
    requires Inv(p, s) && TablesOk(p, s'.tables) && OthersSame(s.tables, s'.tables, ids)
    requires s'.guards.Keys - ids == s.guards.Keys - ids
    requires forall id :: id in s.guards && id in s'.guards && id !in ids ==> s'.guards[id] == s.guards[id]
    requires forall id :: id in ids && id in s'.guards ==> GuardOk(p, s'.tables, id, s'.guards[id])
    requires forall id :: id in ids && Is(s'.tables, id, Running) && s'.tables.jobs[id].metered ==> id in s'.guards
    ensures Inv(p, s')
  {
    forall id | id in s'.guards
      ensures GuardOk(p, s'.tables, id, s'.guards[id])
    {
      if id !in ids {
        assert id in s'.guards.Keys - ids;
        assert GuardOk(p, s.tables, id, s.guards[id]);
      }
    }
    forall id | Is(s'.tables, id, Running) && s'.tables.jobs[id].metered
      ensures id in s'.guards
    {
      if id !in ids {
        assert Is(s.tables, id, Running);
        assert id in s.guards.Keys - ids;
      }
    }
  }

  lemma SubmitKeepsInv(p: Policy, s: System, id: JobId, owner: string, metered: bool, key: Option<string>,
                       hash: string, period: int, createdAt: int)
    requires Inv(p, s) && id !in s.tables.jobs
    ensures Inv(p, Next(p, s, Submit(id, owner, metered, key, hash, period, createdAt)))
  {
    var r := ReservationOf(p, owner, metered, period);
    var job := NewJob(owner, metered, key, hash, r, createdAt);
    if CreationOf(s.tables, owner, key, r).Created? {
      InsertKeepsOk(p, s.tables, id, job, r, "job.queued");
      assert id !in s.guards;
      GuardsSurvive(p, s, s.(tables := AfterCreate(s.tables, id, job, r)), {id});
    }
  }

  lemma InsertKeepsOk(p: Policy, t: Tables, id: JobId, job: Job, r: Option<Reservation>, kind: string)
    requires TablesOk(p, t) && Reserve(t, job.owner, r).Some? && !job.status.Terminal()
    requires id in t.jobs ==> t.jobs[id].reserved == 0
    requires r.Some? ==> job.metered && job.period == Some(r.value.period) && job.reserved == HeldUnder(r) &&
                         r.value.limit == p.LimitFor(job.owner)
    requires r.None? ==> !job.metered && job.reserved == 0
    ensures var t' := Log(SetJob(Reserve(t, job.owner, r).value, id, job), id, kind);
      TablesOk(p, t') && OthersSame(t, t', {id})
  {
    ReserveKeepsOk(p, t, id, job, r);
    LogKeepsOk(p, SetJob(Reserve(t, job.owner, r).value, id, job), id, kind);
  }

  lemma ClaimKeepsInv(p: Policy, s: System, worker: nat, now: int)
    requires Inv(p, s)
    ensures Inv(p, Next(p, s, Claim(worker, now)))
  {
    if worker in s.picked && ClaimWins(s.tables, s.picked[worker], now) {
      var id := s.picked[worker];
      RestatusKeepsOk(p, s.tables, id, s.tables.jobs[id].(status := Running));
      GuardsSurvive(p, s, Next(p, s, Claim(worker, now)), {id});
    }
  }

  lemma BeforeCallKeepsInv(p: Policy, s: System, id: JobId)
    requires Inv(p, s) && Possible(s, BeforeCall(id))
    ensures Inv(p, Next(p, s, BeforeCall(id)))
  {
    var g := s.guards[id];
    assert GuardOk(p, s.tables, id, g);
    if g.limit.Some? && g.reserved == 0 && Fits(s.tables, g.owner, g.period, p.ReservationFor(g.limit), g.limit.value) {
      ExtendKeepsOk(p, s.tables, id, p.ReservationFor(g.limit), g.limit.value);
    }
    GuardsSurvive(p, s, Next(p, s, BeforeCall(id)), {id});
  }

  lemma AfterCallKeepsInv(p: Policy, s: System, id: JobId, tokens: nat)
    requires Inv(p, s) && Possible(s, AfterCall(id, tokens))
    ensures Inv(p, Next(p, s, AfterCall(id, tokens)))
  {
    var g := s.guards[id];
    assert GuardOk(p, s.tables, id, g);
    RecordKeepsOk(p, s.tables, id, tokens, Min(tokens, g.reserved));
    GuardsSurvive(p, s, Next(p, s, AfterCall(id, tokens)), {id});
  }

  lemma CancelKeepsInv(p: Policy, s: System, id: JobId)
    requires Inv(p, s)
    ensures Inv(p, Next(p, s, Cancel(id)))
  {
    var t := s.tables;
    if Is(t, id, Queued) {
      ReleaseKeepsOk(p, t, id, Cancelled);
      LogKeepsOk(p, Released(SetJob(t, id, t.jobs[id].(status := Cancelled)), id), id, "job.cancelled");
      assert id !in s.guards;
    } else if Is(t, id, Running) && !t.jobs[id].cancelRequested {
      var job := t.jobs[id].(cancelRequested := true);
      RestatusKeepsOk(p, t, id, job);
      LogKeepsOk(p, SetJob(t, id, job), id, "job.cancel_requested");
      assert id in s.guards ==> GuardOk(p, t, id, s.guards[id]);
    } else {
      return;
    }
    GuardsSurvive(p, s, Next(p, s, Cancel(id)), {id});
  }

  lemma FinishKeepsInv(p: Policy, s: System, id: JobId, status: Status, kind: string)
    requires Inv(p, s) && status.Terminal()
    ensures Inv(p, Next(p, s, Finish(id, status, kind)))
  {
    var t := s.tables;
    assert id in s.guards ==> GuardOk(p, t, id, s.guards[id]);
    if Is(t, id, Running) {
      ReleaseKeepsOk(p, t, id, status);
      LogKeepsOk(p, Released(SetJob(t, id, t.jobs[id].(status := status)), id), id, kind);
    }
    GuardsSurvive(p, s, Next(p, s, Finish(id, status, kind)), {id});
  }

  /** Both ways back to the queue, interruption and automatic retry, keep the reservation. */
  lemma RequeueKeepsInv(p: Policy, s: System, s': System, id: JobId, job: Job, kind: string)
    requires Inv(p, s)
    requires Is(s.tables, id, Running) && job.status.Queued?
    requires job.owner == s.tables.jobs[id].owner && job.metered == s.tables.jobs[id].metered
    requires job.period == s.tables.jobs[id].period && job.reserved == s.tables.jobs[id].reserved
    requires s'.tables == Log(SetJob(s.tables, id, job), id, kind) && s'.guards == s.guards - {id}
    ensures Inv(p, s')
  {
    RestatusKeepsOk(p, s.tables, id, job);
    LogKeepsOk(p, SetJob(s.tables, id, job), id, kind);
    GuardsSurvive(p, s, s', {id});
  }

  lemma LostRequeueKeepsInv(p: Policy, s: System, s': System, id: JobId)
    requires Inv(p, s) && !Is(s.tables, id, Running)
    requires s'.tables == s.tables && s'.guards == s.guards - {id}
    ensures Inv(p, s')
  {
    assert id !in s.guards;
    GuardsSurvive(p, s, s', {id});
  }

  lemma InterruptKeepsInv(p: Policy, s: System, id: JobId)
    requires Inv(p, s)
    ensures Inv(p, Next(p, s, Interrupt(id)))
  {
    var s' := Next(p, s, Interrupt(id));
    if Is(s.tables, id, Running) {
      RequeueKeepsInv(p, s, s', id, s.tables.jobs[id].(status := Queued, runAfter := None), "job.requeued");
    } else {
      LostRequeueKeepsInv(p, s, s', id);
    }
  }

  lemma RetryLaterKeepsInv(p: Policy, s: System, id: JobId, runAfter: int)
    requires Inv(p, s)
    ensures Inv(p, Next(p, s, RetryLater(id, runAfter)))
  {
    var s' := Next(p, s, RetryLater(id, runAfter));
    if Is(s.tables, id, Running) {
      var job := s.tables.jobs[id];
      RequeueKeepsInv(p, s, s', id, job.(status := Queued, retries := job.retries + 1, runAfter := Some(runAfter)),
        "job.retry_scheduled");
    } else {
      LostRequeueKeepsInv(p, s, s', id);
    }
  }

  lemma {:induction false} ReapKeepsOk(p: Policy, t: Tables, stale: seq<JobId>)
    requires TablesOk(p, t)
    ensures TablesOk(p, AfterReap(t, stale))
    ensures OthersSame(t, AfterReap(t, stale), set i | i in stale)
    ensures forall id :: id in stale ==> !Is(AfterReap(t, stale), id, Running)
  {
    if stale != [] {
      var init, id := stale[..|stale| - 1], stale[|stale| - 1];
      ReapKeepsOk(p, t, init);
      assert stale == init + [id];
      var t' := AfterReap(t, init);
      if Is(t', id, Running) { ReleaseKeepsOk(p, t', id, Failed); }
      LogKeepsOk(p, if Is(t', id, Running) then Released(SetJob(t', id, t'.jobs[id].(status := Failed)), id) else t',
        id, "job.failed");
    }
  }

  lemma ReapKeepsInv(p: Policy, s: System, stale: seq<JobId>)
    requires Inv(p, s)
    ensures Inv(p, Next(p, s, Reap(stale)))
  {
    ReapKeepsOk(p, s.tables, stale);
    GuardsSurvive(p, s, Next(p, s, Reap(stale)), set i | i in stale);
  }

  lemma RetryFailedKeepsInv(p: Policy, s: System, id: JobId, owner: string, period: int)
    requires Inv(p, s)
    ensures Inv(p, Next(p, s, RetryFailed(id, owner, period)))
  {
    var t := s.tables;
    var r := RetryReservation(p, t, id, owner, period);
    if RetryWins(t, id, owner, r) {
      var job := RetriedJob(t.jobs[id], r);
      assert JobOk(p, t, t.jobs[id]);
      InsertKeepsOk(p, t, id, job, r, "job.retried");
      assert id !in s.guards;
      GuardsSurvive(p, s, Next(p, s, RetryFailed(id, owner, period)), {id});
    }
  }

  lemma StepKeepsInv(p: Policy, s: System, step: Step)
    requires Inv(p, s) && Possible(s, step)
    ensures Inv(p, Next(p, s, step))
  {
    match step
    case Submit(id, owner, metered, key, hash, period, createdAt) =>
      SubmitKeepsInv(p, s, id, owner, metered, key, hash, period, createdAt);
    case Select(_, _) =>
    case Claim(worker, now) => ClaimKeepsInv(p, s, worker, now);
    case BeforeCall(id) => BeforeCallKeepsInv(p, s, id);
    case AfterCall(id, tokens) => AfterCallKeepsInv(p, s, id, tokens);
    case Cancel(id) => CancelKeepsInv(p, s, id);
    case Finish(id, status, kind) => FinishKeepsInv(p, s, id, status, kind);
    case Interrupt(id) => InterruptKeepsInv(p, s, id);
    case RetryLater(id, runAfter) => RetryLaterKeepsInv(p, s, id, runAfter);
    case Reap(stale) => ReapKeepsInv(p, s, stale);
    case RetryFailed(id, owner, period) => RetryFailedKeepsInv(p, s, id, owner, period);
  }

  /** Conservation: after every step of every run the books balance. */
  lemma {:induction false} EveryRunConserves(p: Policy, steps: seq<Step>, states: seq<System>, i: nat)
    requires IsRun(p, steps, states) && i < |states|
    ensures Inv(p, states[i])
  {
    if i == 0 {
      assert forall owner, period ::
        RowOf(EMPTY.tables, owner, period).reserved == Sum(EMPTY.tables.jobs, HeldFrom(owner, period));
    } else {
      EveryRunConserves(p, steps, states, i - 1);
      StepKeepsInv(p, states[i - 1], steps[i - 1]);
    }
  }

  /** The `else 0` of `_decrement` is never taken: what is subtracted was there. */
  lemma NothingIsClamped(p: Policy, s: System, id: JobId, tokens: nat)
    requires Inv(p, s) && id in s.tables.jobs
    ensures var job := s.tables.jobs[id];
      job.reserved > 0 ==> job.period.Some? && job.reserved <= RowOf(s.tables, job.owner, job.period.value).reserved
    ensures id in s.guards ==>
      var g := s.guards[id]; var consumed := Min(tokens, g.reserved);
      consumed <= s.tables.jobs[id].reserved && consumed <= RowOf(s.tables, g.owner, g.period).reserved
  {
    assert JobOk(p, s.tables, s.tables.jobs[id]);
    if s.tables.jobs[id].period.Some? { RowCoversJob(p, s.tables, id); }
    if id in s.guards { assert GuardOk(p, s.tables, id, s.guards[id]); }
  }

  // ------------------------------------------------------------------ where the condition matters

  /** What a report by a worker that lost its claim may convert without harm. Its job may have ended,
      wait, or run again under another worker, may count in another period by now, or be deleted. */
  ghost predicate HarmlessReport(s: System, id: JobId, owner: string, period: int, consumed: nat) {
    var row := RowOf(s.tables, owner, period).reserved;
    var held := HeldBy(s.tables, id);
    consumed == 0 ||
    ((if CountsIn(s.tables, id, period) then consumed <= held || row == held else row == 0 == held) &&
     (id in s.guards ==> held == 0))
  }

  function HeldBy(t: Tables, id: JobId): nat {
    if id in t.jobs then t.jobs[id].reserved else 0
  }

  predicate CountsIn(t: Tables, id: JobId, period: int) {
    id in t.jobs && t.jobs[id].period == Some(period)
  }

  /** The worker knows its job's owner, which never changes. */
  predicate OwnerIs(t: Tables, id: JobId, owner: string) {
    id in t.jobs ==> t.jobs[id].owner == owner
  }

  lemma RecordedJob(t: Tables, id: JobId, owner: string, period: int, tokens: nat, consumed: nat)
    ensures var t' := Recorded(t, id, owner, period, tokens, consumed);
      && t'.jobs.Keys == t.jobs.Keys && t'.jobs - {id} == t.jobs - {id}
      && (id in t.jobs ==> t'.jobs[id] == t.jobs[id].(reserved := Decrement(t.jobs[id].reserved, consumed)))
      && t'.ledger.Keys == t.ledger.Keys
      && RowOf(t', owner, period).reserved == Decrement(RowOf(t, owner, period).reserved, consumed)
      && forall a, b :: (a, b) != (owner, period) ==> RowOf(t', a, b) == RowOf(t, a, b)
  {
  }

  /** The rows after a change of one job, against what the jobs then hold. */
  lemma OneJobSums(t: Tables, t': Tables, id: JobId, owner: string, per: int)
    requires Conserved(t) && t'.jobs - {id} == t.jobs - {id}
    ensures var w := HeldFrom(owner, per);
      Sum(t'.jobs, w) - RowOf(t', owner, per).reserved
        == (RowOf(t, owner, per).reserved - RowOf(t', owner, per).reserved)
           - ((if id in t.jobs then w(t.jobs[id]) else 0) - (if id in t'.jobs then w(t'.jobs[id]) else 0))
  {
    var w := HeldFrom(owner, per);
    SumWithout(t.jobs, w, id);
    SumWithout(t'.jobs, w, id);
  }

  lemma SumWithout(jobs: map<JobId, Job>, w: Job -> nat, id: JobId)
    ensures Sum(jobs, w) == Sum(jobs - {id}, w) + if id in jobs then w(jobs[id]) else 0
  {
    if id in jobs { SumTakeOut(jobs, w, id); } else { assert jobs - {id} == jobs; }
  }

  lemma LateReportConserves(p: Policy, t: Tables, id: JobId, owner: string, period: int, tokens: nat, consumed: nat)
    requires TablesOk(p, t) && OwnerIs(t, id, owner)
    ensures var row := RowOf(t, owner, period).reserved;
      Conserved(Recorded(t, id, owner, period, tokens, consumed)) <==>
        || consumed == 0
        || (if CountsIn(t, id, period) then consumed <= HeldBy(t, id) || row == HeldBy(t, id)
            else row == 0 == HeldBy(t, id))
  {
    var t' := Recorded(t, id, owner, period, tokens, consumed);
    RecordedJob(t, id, owner, period, tokens, consumed);
    forall o, per
      ensures Sum(t'.jobs, HeldFrom(o, per)) - RowOf(t', o, per).reserved
        == (RowOf(t, o, per).reserved - RowOf(t', o, per).reserved)
           - ((if id in t.jobs then HeldFrom(o, per)(t.jobs[id]) else 0)
              - (if id in t'.jobs then HeldFrom(o, per)(t'.jobs[id]) else 0))
    {
      OneJobSums(t, t', id, o, per);
    }
    if id in t.jobs && t.jobs[id].period.Some? { RowCoversJob(p, t, id); }
    assert id in t.jobs ==> JobOk(p, t, t.jobs[id]);
    if Conserved(t') {
      assert RowOf(t', owner, period).reserved == Sum(t'.jobs, HeldFrom(owner, period));
      if id in t.jobs && t.jobs[id].period.Some? {
        var per := t.jobs[id].period.value;
        assert RowOf(t', owner, per).reserved == Sum(t'.jobs, HeldFrom(owner, per));
      }
    }
  }

  lemma HarmlessAtJob(p: Policy, s: System, id: JobId, owner: string, period: int, tokens: nat, consumed: nat)
    requires Inv(p, s) && OwnerIs(s.tables, id, owner) && HarmlessReport(s, id, owner, period, consumed)
    ensures var t' := Recorded(s.tables, id, owner, period, tokens, consumed);
      && (id in t'.jobs ==> JobOk(p, t', t'.jobs[id])) && OthersSame(s.tables, t', {id})
      && (id in s.guards ==> GuardOk(p, t', id, s.guards[id]))
      && (Is(t', id, Running) <==> Is(s.tables, id, Running))
  {
    var t := s.tables;
    RecordedJob(t, id, owner, period, tokens, consumed);
    OthersOutside(t, Recorded(t, id, owner, period, tokens, consumed), id);
    assert id in t.jobs ==> JobOk(p, t, t.jobs[id]);
    assert id in s.guards ==> GuardOk(p, t, id, s.guards[id]);
  }

  lemma HarmlessTables(p: Policy, s: System, id: JobId, owner: string, period: int, tokens: nat, consumed: nat)
    requires Inv(p, s) && OwnerIs(s.tables, id, owner) && HarmlessReport(s, id, owner, period, consumed)
    ensures TablesOk(p, Recorded(s.tables, id, owner, period, tokens, consumed))
  {
    var t := s.tables;
    var t' := Recorded(t, id, owner, period, tokens, consumed);
    HarmlessAtJob(p, s, id, owner, period, tokens, consumed);
    LateReportConserves(p, t, id, owner, period, tokens, consumed);
    forall i | i in t'.jobs
      ensures JobOk(p, t', t'.jobs[i])
    {
      if i != id { assert i !in {id} && JobOk(p, t, t.jobs[i]); }
    }
  }

  lemma HarmlessKeepsInv(p: Policy, s: System, id: JobId, owner: string, period: int, tokens: nat, consumed: nat)
    requires Inv(p, s) && OwnerIs(s.tables, id, owner) && HarmlessReport(s, id, owner, period, consumed)
    ensures Inv(p, s.(tables := Recorded(s.tables, id, owner, period, tokens, consumed)))
  {
    HarmlessTables(p, s, id, owner, period, tokens, consumed);
    HarmlessAtJob(p, s, id, owner, period, tokens, consumed);
    GuardsSurvive(p, s, s.(tables := Recorded(s.tables, id, owner, period, tokens, consumed)), {id});
  }

  lemma KeptMeansHarmless(p: Policy, s: System, id: JobId, owner: string, period: int, tokens: nat, consumed: nat)
    requires Inv(p, s) && OwnerIs(s.tables, id, owner)
    requires Inv(p, s.(tables := Recorded(s.tables, id, owner, period, tokens, consumed)))
    ensures HarmlessReport(s, id, owner, period, consumed)
  {
    var t := s.tables;
    var t' := Recorded(t, id, owner, period, tokens, consumed);
    RecordedJob(t, id, owner, period, tokens, consumed);
    LateReportConserves(p, t, id, owner, period, tokens, consumed);
    if id in s.guards { assert GuardOk(p, t, id, s.guards[id]) && GuardOk(p, t', id, s.guards[id]); }
  }

  /** A late report keeps ledger, job rows and guards in agreement exactly when it is harmless. */
  lemma LateReport(p: Policy, s: System, id: JobId, owner: string, period: int, tokens: nat, consumed: nat)
    requires Inv(p, s) && OwnerIs(s.tables, id, owner)
    ensures Inv(p, s.(tables := Recorded(s.tables, id, owner, period, tokens, consumed))) <==>
      HarmlessReport(s, id, owner, period, consumed)
  {
    if HarmlessReport(s, id, owner, period, consumed) {
      HarmlessKeepsInv(p, s, id, owner, period, tokens, consumed);
    }
    if Inv(p, s.(tables := Recorded(s.tables, id, owner, period, tokens, consumed))) {
      KeptMeansHarmless(p, s, id, owner, period, tokens, consumed);
    }
  }

  lemma OthersOutside(t: Tables, t': Tables, id: JobId)
    requires t'.jobs - {id} == t.jobs - {id}
    ensures OthersSame(t, t', {id})
  {
    forall i | i !in {id}
      ensures (i in t.jobs <==> i in t'.jobs) && (i in t.jobs ==> t.jobs[i] == t'.jobs[i])
    {
      assert i in t.jobs <==> i in t.jobs - {id};
      assert i in t'.jobs <==> i in t'.jobs - {id};
    }
  }

  /** A late top-up, by a worker whose job another one may have by now, keeps them in agreement exactly
      when it is refused, or the job waits in that same period. */
  lemma LateTopUp(p: Policy, s: System, id: JobId, owner: string, period: int, amount: nat, limit: nat)
    requires Inv(p, s) && OwnerIs(s.tables, id, owner) && amount >= 1
    requires id in s.tables.jobs ==> s.tables.jobs[id].metered
    requires p.LimitFor(owner) == Some(limit)
    ensures Inv(p, s.(tables := Extended(s.tables, id, owner, period, amount, limit))) <==>
      !Fits(s.tables, owner, period, amount, limit) || (Is(s.tables, id, Queued) && CountsIn(s.tables, id, period))
  {
    var t := s.tables;
    var s' := s.(tables := Extended(t, id, owner, period, amount, limit));
    assert id in t.jobs ==> JobOk(p, t, t.jobs[id]);
    if id in s.guards { assert GuardOk(p, t, id, s.guards[id]); }
    if Fits(t, owner, period, amount, limit) {
      if Is(t, id, Queued) && CountsIn(t, id, period) {
        ExtendKeepsOk(p, t, id, amount, limit);
        GuardsSurvive(p, s, s', {id});
      } else {
        LateTopUpBreaks(p, s, s', id, owner, period, amount, limit);
      }
    }
  }

  lemma LateTopUpBreaks(p: Policy, s: System, s': System, id: JobId, owner: string, period: int, amount: nat,
                        limit: nat)
    requires Inv(p, s) && OwnerIs(s.tables, id, owner) && amount >= 1
    requires id in s.tables.jobs ==> s.tables.jobs[id].metered
    requires Fits(s.tables, owner, period, amount, limit)
    requires s' == s.(tables := Extended(s.tables, id, owner, period, amount, limit))
    requires !Is(s.tables, id, Queued) || !CountsIn(s.tables, id, period)
    ensures !Inv(p, s')
  {
    if Is(s.tables, id, Running) {
      assert GuardOk(p, s.tables, id, s.guards[id]);
      assert !GuardOk(p, s'.tables, id, s.guards[id]);
    } else if id in s.tables.jobs && s.tables.jobs[id].status.Terminal() {
      assert !JobOk(p, s'.tables, s'.tables.jobs[id]);
    } else {
      assert s'.tables.jobs - {id} == s.tables.jobs - {id};
      OneJobSums(s.tables, s'.tables, id, owner, period);
      assert RowOf(s'.tables, owner, period).reserved != Sum(s'.tables.jobs, HeldFrom(owner, period));
    }
  }

  function WithoutJob(s: System, id: JobId): System {
    s.(tables := s.tables.(jobs := s.tables.jobs - {id}))
  }

  /** The rows alone balance after a deletion exactly when the deleted row holds nothing. */
  lemma DeletedRow(p: Policy, t: Tables, id: JobId)
    requires TablesOk(p, t) && id in t.jobs
    ensures Conserved(t.(jobs := t.jobs - {id})) <==> t.jobs[id].reserved == 0
  {
    var job := t.jobs[id];
    var t' := t.(jobs := t.jobs - {id});
    forall o, per
      ensures RowOf(t', o, per).reserved == Sum(t'.jobs, HeldFrom(o, per)) + HeldFrom(o, per)(job)
    {
      SumTakeOut(t.jobs, HeldFrom(o, per), id);
    }
    assert JobOk(p, t, job);
    if job.reserved > 0 {
      assert RowOf(t', job.owner, job.period.value).reserved != Sum(t'.jobs, HeldFrom(job.owner, job.period.value));
    }
  }

  /** `delete_job` checks for a terminal status and deletes in a later transaction; a retry may come in
      between. A deletion keeps ledger, job rows and guards in agreement exactly when the row holds
      nothing by then and no worker's guard is left without its job. */
  lemma DeletedJob(p: Policy, s: System, id: JobId)
    requires Inv(p, s) && id in s.tables.jobs
    ensures Inv(p, WithoutJob(s, id)) <==> s.tables.jobs[id].reserved == 0 && id !in s.guards
  {
    var s' := WithoutJob(s, id);
    DeletedRow(p, s.tables, id);
    if id in s.guards {
      assert !GuardOk(p, s'.tables, id, s.guards[id]);
    } else if s.tables.jobs[id].reserved == 0 {
      assert forall i :: i in s'.tables.jobs ==> JobOk(p, s.tables, s.tables.jobs[i]);
      GuardsSurvive(p, s, s', {id});
    }
  }
}
