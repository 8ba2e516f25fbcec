/** Every transaction of a run in terms of the rows it finds: when it goes through, which row of the job table and
    which of the ledger it changes and to what, and what it logs. */
module Transactions {
  import opened Options
  import opened Ledger
  import opened Runs
  import opened Conservation

  // ------------------------------------------------------------------ terms

  /** Is there room for so many more tokens? */
  ghost predicate HasRoom(t: Tables, owner: string, period: int, limit: Option<nat>, amount: nat) {
    limit.Some? ==> RowOf(t, owner, period).used + RowOf(t, owner, period).reserved + amount <= limit.value
  }

  /** What a new or retried job of a principal holds. */
  function Share(p: Policy, owner: string, metered: bool): nat {
    if metered && p.LimitFor(owner).Some? then p.ReservationFor(p.LimitFor(owner)) else 0
  }

  /** All other jobs are as they were. */
  ghost predicate OnlyJob(t: Tables, t': Tables, id: JobId) {
    forall i :: i != id ==> (i in t'.jobs <==> i in t.jobs) && (i in t.jobs ==> t'.jobs[i] == t.jobs[i])
  }

  /** The ledger's row has become this one, and all others are as they were. */
  ghost predicate OnlyRow(t: Tables, t': Tables, owner: string, period: int, row: Row) {
    && RowOf(t', owner, period) == row
    && forall o, q :: (o, q) != (owner, period) ==> RowOf(t', o, q) == RowOf(t, o, q)
  }

  ghost predicate SameLedger(t: Tables, t': Tables) {
    forall o, q :: RowOf(t', o, q) == RowOf(t, o, q)
  }

  ghost predicate Logs(t: Tables, t': Tables, id: JobId, kind: string) {
    t'.events == t.events + [Event(id, kind)]
  }

  // ------------------------------------------------------------------ reserving

  lemma ReservingIs(p: Policy, t: Tables, owner: string, metered: bool, period: int)
    ensures var r, share := ReservationOf(p, owner, metered, period), Share(p, owner, metered);
      && (Reserve(t, owner, r).Some? <==> metered ==> HasRoom(t, owner, period, p.LimitFor(owner), share))
      && (Reserve(t, owner, r).Some? ==>
            var t' := Reserve(t, owner, r).value; var row := RowOf(t, owner, period);
            && t'.jobs == t.jobs && t'.events == t.events
            && OnlyRow(t, t', owner, period, row.(reserved := row.reserved + share)))
  {
  }

  /** A submission goes through exactly if its owner has no job with its key and has room for a reservation. Then its
      job waits with that reservation, and else nothing changes. */
  lemma SubmitIs(p: Policy, s: System, step: Step)
    requires Possible(s, step) && step.Submit?
    ensures var t, t' := s.tables, Next(p, s, step).tables; var share := Share(p, step.owner, step.metered);
      var row := RowOf(t, step.owner, step.period);
      if (step.metered ==> HasRoom(t, step.owner, step.period, p.LimitFor(step.owner), share)) &&
         (step.key.Some? ==> forall i :: i in t.jobs ==> t.jobs[i].owner != step.owner || t.jobs[i].key != step.key)
      then
        && step.id in t'.jobs && OnlyJob(t, t', step.id) && Logs(t, t', step.id, "job.queued")
        && t'.jobs[step.id] == Job(step.owner, step.metered, step.key, step.hash, Queued,
             if step.metered then Some(step.period) else None, share, false, step.createdAt, None, 0)
        && OnlyRow(t, t', step.owner, step.period, row.(reserved := row.reserved + share))
      else t' == t
  {
    ReservingIs(p, s.tables, step.owner, step.metered, step.period);
  }

  /** A retry goes through exactly for a failed job of that owner, with room for a new reservation in the present
      period. Then the job waits again with that, its retries counted anew, and else nothing changes. */
  lemma RetryIs(p: Policy, s: System, step: Step)
    requires Possible(s, step) && step.RetryFailed?
    ensures var t, t' := s.tables, Next(p, s, step).tables; var id := step.id;
      if id in t.jobs && t.jobs[id].status.Failed? && t.jobs[id].owner == step.owner &&
         (t.jobs[id].metered ==>
            HasRoom(t, step.owner, step.period, p.LimitFor(step.owner), Share(p, step.owner, true)))
      then
        var job, share := t.jobs[id], Share(p, step.owner, t.jobs[id].metered);
        var row := RowOf(t, step.owner, step.period);
        && id in t'.jobs && OnlyJob(t, t', id) && Logs(t, t', id, "job.retried")
        && t'.jobs[id] == job.(status := Queued, retries := 0, runAfter := None,
             period := if job.metered then Some(step.period) else job.period,
             reserved := if job.metered then share else job.reserved)
        && OnlyRow(t, t', step.owner, step.period, row.(reserved := row.reserved + share))
      else t' == t
  {
    var t, id := s.tables, step.id;
    ReservingIs(p, t, step.owner, id in t.jobs && t.jobs[id].metered, step.period);
  }

  // ------------------------------------------------------------------ claims and calls

  /** A claim goes through exactly for the job its worker picked, if that waits and its time has come; it marks the
      job as running, and gives a metered one's worker a guard that holds what the job does. */
  lemma ClaimIs(p: Policy, s: System, step: Step)
    requires Possible(s, step) && step.Claim?
    ensures var s' := Next(p, s, step); var t, t' := s.tables, s'.tables;
      if step.worker in s.picked && s.picked[step.worker] in t.jobs &&
         var job := t.jobs[s.picked[step.worker]];
         job.status.Queued? && (job.runAfter == None || job.runAfter.value <= step.now)
      then
        var id := s.picked[step.worker];
        && t' == t.(jobs := t.jobs[id := t.jobs[id].(status := Running)])
        && (t.jobs[id].metered && t.jobs[id].period.Some? ==>
             id in s'.guards &&
             s'.guards[id] == Guard(t.jobs[id].owner, t.jobs[id].period.value, p.LimitFor(t.jobs[id].owner),
                                    t.jobs[id].reserved, false))
      else t' == t && s'.guards == s.guards
  {
  }

  /** A call goes ahead exactly without a limit, with tokens reserved, or with room to reserve as many as a new job
      does; only in the last case does it reserve anything: for the ledger, the job and the guard alike. */
  lemma CallIs(p: Policy, s: System, step: Step)
    requires Inv(p, s) && Possible(s, step) && step.BeforeCall?
    ensures var s' := Next(p, s, step); var t, t', g := s.tables, s'.tables, s.guards[step.id];
      var row, share := RowOf(t, g.owner, g.period), Share(p, g.owner, true);
      && step.id in s'.guards && step.id in t.jobs
      && if g.limit.None? || g.reserved > 0 then t' == t && s'.guards[step.id] == g.(inFlight := true)
         else if HasRoom(t, g.owner, g.period, g.limit, share) then
           && s'.guards[step.id] == g.(inFlight := true, reserved := share)
           && step.id in t'.jobs && OnlyJob(t, t', step.id) && t'.events == t.events
           && t'.jobs[step.id] == t.jobs[step.id].(reserved := t.jobs[step.id].reserved + share)
           && OnlyRow(t, t', g.owner, g.period, row.(reserved := row.reserved + share))
         else s' == s
  {
    assert GuardOk(p, s.tables, step.id, s.guards[step.id]);
    assert JobOk(p, s.tables, s.tables.jobs[step.id]);
  }

  lemma RecordedIs(t: Tables, id: JobId, owner: string, period: int, tokens: nat, taken: nat)
    requires id in t.jobs && (owner, period) in t.ledger
    requires taken <= t.jobs[id].reserved && taken <= RowOf(t, owner, period).reserved
    ensures var t', row := Recorded(t, id, owner, period, tokens, taken), RowOf(t, owner, period);
      && t'.events == t.events && id in t'.jobs && OnlyJob(t, t', id)
      && t'.jobs[id] == t.jobs[id].(reserved := t.jobs[id].reserved - taken)
      && OnlyRow(t, t', owner, period, Row(row.used + tokens, row.reserved - taken))
  {
  }

  /** A report counts the tokens as used; as far as the guard holds them, they come out of what is reserved, in the
      ledger, the job and the guard alike. */
  lemma ReportIs(p: Policy, s: System, step: Step)
    requires Inv(p, s) && Possible(s, step) && step.AfterCall?
    ensures var s' := Next(p, s, step); var t, t', g := s.tables, s'.tables, s.guards[step.id];
      var row, taken := RowOf(t, g.owner, g.period), if step.tokens < g.reserved then step.tokens else g.reserved;
      && step.id in s'.guards && s'.guards[step.id] == g.(inFlight := false, reserved := g.reserved - taken)
      && step.id in t.jobs && step.id in t'.jobs && OnlyJob(t, t', step.id) && t'.events == t.events
      && taken <= t.jobs[step.id].reserved && taken <= row.reserved
      && t'.jobs[step.id] == t.jobs[step.id].(reserved := t.jobs[step.id].reserved - taken)
      && OnlyRow(t, t', g.owner, g.period, Row(row.used + step.tokens, row.reserved - taken))
  {
    var g := s.guards[step.id];
    assert GuardOk(p, s.tables, step.id, g);
    assert JobOk(p, s.tables, s.tables.jobs[step.id]);
    NothingIsClamped(p, s, step.id, step.tokens);
    RecordedIs(s.tables, step.id, g.owner, g.period, step.tokens, Min(step.tokens, g.reserved));
  }

  // ------------------------------------------------------------------ ends

  /** The job's row has become `job`, which holds nothing, and what it held is reserved no more. */
  ghost predicate GivesBack(t: Tables, t': Tables, id: JobId, job: Job) {
    && id in t.jobs && id in t'.jobs && OnlyJob(t, t', id) && t'.jobs[id] == job.(reserved := 0)
    && if t.jobs[id].reserved == 0 then SameLedger(t, t')
       else
         t.jobs[id].period.Some? && var owner, period := t.jobs[id].owner, t.jobs[id].period.value;
         var row := RowOf(t, owner, period);
         t.jobs[id].reserved <= row.reserved &&
         OnlyRow(t, t', owner, period, row.(reserved := row.reserved - t.jobs[id].reserved))
  }

  lemma ReleaseIs(p: Policy, s: System, id: JobId, status: Status)
    requires Inv(p, s) && id in s.tables.jobs
    ensures var t := s.tables; var t' := Released(SetJob(t, id, t.jobs[id].(status := status)), id);
      GivesBack(t, t', id, t.jobs[id].(status := status)) && t'.events == t.events
  {
    NothingIsClamped(p, s, id, 0);
    assert JobOk(p, s.tables, s.tables.jobs[id]);
  }

  /** An outcome counts exactly for a running job. */
  lemma FinishIs(p: Policy, s: System, step: Step)
    requires Inv(p, s) && Possible(s, step) && step.Finish?
    ensures var s' := Next(p, s, step); var t, t', id := s.tables, s'.tables, step.id;
      if id in t.jobs && t.jobs[id].status.Running? then
        GivesBack(t, t', id, t.jobs[id].(status := step.status)) && Logs(t, t', id, step.kind) && id !in s'.guards
      else t' == t
  {
    if Is(s.tables, step.id, Running) { ReleaseIs(p, s, step.id, step.status); }
  }

  /** A request to cancel ends a waiting job, asks a running one to stop, once, and leaves any other alone. */
  lemma CancelIs(p: Policy, s: System, id: JobId)
    requires Inv(p, s)
    ensures var s' := Next(p, s, Cancel(id)); var t, t' := s.tables, s'.tables;
      && s'.guards == s.guards
      && if id in t.jobs && t.jobs[id].status.Queued? then
           GivesBack(t, t', id, t.jobs[id].(status := Cancelled)) && Logs(t, t', id, "job.cancelled")
         else if id in t.jobs && t.jobs[id].status.Running? && !t.jobs[id].cancelRequested then
           t' == Tables(t.jobs[id := t.jobs[id].(cancelRequested := true)], t.ledger,
                        t.events + [Event(id, "job.cancel_requested")])
         else t' == t
  {
    if Is(s.tables, id, Queued) { ReleaseIs(p, s, id, Cancelled); }
  }

  /** A job that its worker gives back waits again with what it holds: at once, or from the given time on, which
      counts as a retry. */
  lemma RequeueIs(p: Policy, s: System, step: Step)
    requires Possible(s, step) && (step.Interrupt? || step.RetryLater?)
    ensures var s' := Next(p, s, step); var t, t', id := s.tables, s'.tables, step.id;
      if id in t.jobs && t.jobs[id].status.Running? then
        var job := t.jobs[id];
        && id !in s'.guards && t'.ledger == t.ledger
        && t'.jobs == t.jobs[id :=
             if step.RetryLater?
             then job.(status := Queued, runAfter := Some(step.runAfter), retries := job.retries + 1)
             else job.(status := Queued, runAfter := None)]
        && Logs(t, t', id, if step.RetryLater? then "job.retry_scheduled" else "job.requeued")
      else t' == t
  {
  }

  /** The reaper fails the running ones of the jobs it was given and takes what they hold; it logs every one it
      was given. */
  lemma {:induction false} ReapIs(t: Tables, stale: seq<JobId>, id: JobId)
    requires id in t.jobs && (t.jobs[id].reserved > 0 ==> t.jobs[id].period.Some?)
    ensures var t' := AfterReap(t, stale);
      && id in t'.jobs && t'.jobs[id] == (
           if id in stale && t.jobs[id].status.Running? then t.jobs[id].(status := Failed, reserved := 0)
           else t.jobs[id])
      && t'.events == t.events + seq(|stale|, i requires 0 <= i < |stale| => Event(stale[i], "job.failed"))
  {
    if stale != [] {
      var init := stale[..|stale| - 1];
      ReapIs(t, init, id);
      assert stale == init + [stale[|stale| - 1]];
    }
  }
}
