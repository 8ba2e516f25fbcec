/** How many jobs can hold a reservation of one principal's period at once: each of them took a whole
    one within the limit. */
module Seats {
  import opened Options
  import opened Ledger
  import opened Runs
  import opened Conservation
  import opened Overshoot

  /** The amount every reservation and every top-up of this principal takes. */
  function AmountFor(p: Policy, owner: string): nat {
    p.ReservationFor(p.LimitFor(owner))
  }

  /** No job holds more than one reservation's worth. */
  ghost predicate Capped(p: Policy, t: Tables) {
    forall id :: id in t.jobs ==> t.jobs[id].reserved <= AmountFor(p, t.jobs[id].owner)
  }

  /** Whoever holds something here took a whole amount, and all of it was within the limit. */
  ghost predicate Seated(p: Policy, t: Tables, owner: string, period: int, limit: nat) {
    && AmountFor(p, owner) * Holders(t, owner, period) <= Spent(t, owner, period)
    && AmountFor(p, owner) * Holders(t, owner, period) <= limit
  }

  /** One job more took an amount that still fitted. */
  ghost predicate Took(t: Tables, t': Tables, owner: string, period: int, amount: nat, limit: nat) {
    && Spent(t', owner, period) == Spent(t, owner, period) + amount <= limit
    && Holders(t', owner, period) == Holders(t, owner, period) + 1
  }

  /** Jobs that hold nothing any more gave back at most an amount each. */
  ghost predicate Freed(t: Tables, t': Tables, owner: string, period: int, amount: nat) {
    && Holders(t', owner, period) <= Holders(t, owner, period)
    && Spent(t, owner, period) <= Spent(t', owner, period)
        + amount * (Holders(t, owner, period) - Holders(t', owner, period))
  }

  lemma Apart(r: nat, a: nat, b: nat)
    requires b <= a
    ensures r * a == r * b + r * (a - b) && r * (a - b) >= 0
  {
  }

  lemma SeatsMove(p: Policy, t: Tables, t': Tables, owner: string, period: int, limit: nat)
    requires Seated(p, t, owner, period, limit)
    requires Took(t, t', owner, period, AmountFor(p, owner), limit) || Freed(t, t', owner, period, AmountFor(p, owner))
    ensures Seated(p, t', owner, period, limit)
  {
    var r, a, b := AmountFor(p, owner), Holders(t, owner, period), Holders(t', owner, period);
    if b <= a {
      Apart(r, a, b);
    } else {
      Apart(r, b, a);
      assert r * 1 == r;
    }
  }

  lemma FreedTwice(a: Tables, b: Tables, c: Tables, owner: string, period: int, amount: nat)
    requires Freed(a, b, owner, period, amount) && Freed(b, c, owner, period, amount)
    ensures Freed(a, c, owner, period, amount)
  {
    var x, y, z := Holders(a, owner, period), Holders(b, owner, period), Holders(c, owner, period);
    Apart(amount, x - z, y - z);
  }

  lemma SameSeats(t: Tables, t': Tables, owner: string, period: int, amount: nat)
    requires Holders(t', owner, period) == Holders(t, owner, period)
    requires Spent(t, owner, period) <= Spent(t', owner, period)
    ensures Freed(t, t', owner, period, amount)
  {
    assert amount * 0 == 0;
  }

  // ------------------------------------------------------------------ one transaction at a time

  lemma ReleaseFrees(p: Policy, t: Tables, id: JobId, status: Status, owner: string, period: int)
    requires TablesOk(p, t) && Capped(p, t) && id in t.jobs
    ensures Freed(t, Released(SetJob(t, id, t.jobs[id].(status := status)), id), owner, period, AmountFor(p, owner))
  {
    var job := t.jobs[id];
    var t' := Released(SetJob(t, id, job.(status := status)), id);
    ReleaseKeepsOk(p, t, id, status);
    HoldersPut(t, t', id, job.(status := status, reserved := 0), owner, period);
    if job.reserved > 0 { RowCoversJob(p, t, id); }
    if HoldsFrom(owner, period)(job) == 1 {
      assert AmountFor(p, owner) * 1 == AmountFor(p, owner);
    } else {
      SameSeats(t, t', owner, period, AmountFor(p, owner));
    }
  }

  lemma ReserveTakes(p: Policy, t: Tables, id: JobId, job: Job, r: Option<Reservation>, owner: string, period: int,
                     limit: nat)
    requires Reserve(t, job.owner, r).Some? && p.LimitFor(owner) == Some(limit)
    requires id in t.jobs ==> t.jobs[id].reserved == 0
    requires r.Some? ==> job.period == Some(r.value.period) && job.reserved == HeldUnder(r)
    requires r.Some? ==> r.value.limit == p.LimitFor(job.owner) && r.value.amount == AmountFor(p, job.owner)
    requires r.None? ==> job.reserved == 0
    ensures var t' := SetJob(Reserve(t, job.owner, r).value, id, job);
      Took(t, t', owner, period, AmountFor(p, owner), limit) || Freed(t, t', owner, period, AmountFor(p, owner))
  {
    var t' := SetJob(Reserve(t, job.owner, r).value, id, job);
    HoldersPut(t, t', id, job, owner, period);
    if HoldsFrom(owner, period)(job) == 0 { SameSeats(t, t', owner, period, AmountFor(p, owner)); }
  }

  lemma ExtendTakes(p: Policy, t: Tables, id: JobId, l: nat, owner: string, period: int, limit: nat)
    requires id in t.jobs && t.jobs[id].period.Some? && p.LimitFor(t.jobs[id].owner) == Some(l)
    requires t.jobs[id].reserved == 0 && p.LimitFor(owner) == Some(limit)
    requires Fits(t, t.jobs[id].owner, t.jobs[id].period.value, AmountFor(p, t.jobs[id].owner), l)
    ensures var amount := AmountFor(p, t.jobs[id].owner);
      var t' := Extended(t, id, t.jobs[id].owner, t.jobs[id].period.value, amount, l);
      Took(t, t', owner, period, AmountFor(p, owner), limit) || Freed(t, t', owner, period, AmountFor(p, owner))
  {
    var job, amount := t.jobs[id], AmountFor(p, t.jobs[id].owner);
    var t' := Extended(t, id, job.owner, job.period.value, amount, l);
    HoldersPut(t, t', id, job.(reserved := job.reserved + amount), owner, period);
    if job.owner != owner || job.period != Some(period) { SameSeats(t, t', owner, period, AmountFor(p, owner)); }
  }

  lemma ReportFrees(p: Policy, t: Tables, id: JobId, tokens: nat, owner: string, period: int)
    requires TablesOk(p, t) && id in t.jobs && t.jobs[id].metered
    ensures var job := t.jobs[id];
      var t' := Recorded(t, id, job.owner, job.period.value, tokens, Min(tokens, job.reserved));
      Freed(t, t', owner, period, AmountFor(p, owner))
  {
    var job := t.jobs[id];
    var consumed := Min(tokens, job.reserved);
    var t' := Recorded(t, id, job.owner, job.period.value, tokens, consumed);
    RowCoversJob(p, t, id);
    if consumed == 0 { assert t.jobs[id := job] == t.jobs; }
    HoldersPut(t, t', id, job.(reserved := job.reserved - consumed), owner, period);
    Scaled(0, Holders(t, owner, period) - Holders(t', owner, period), AmountFor(p, owner));
  }

  lemma {:induction false} ReapFrees(p: Policy, t: Tables, stale: seq<JobId>, owner: string, period: int)
    requires TablesOk(p, t) && Capped(p, t)
    ensures Capped(p, AfterReap(t, stale)) && Freed(t, AfterReap(t, stale), owner, period, AmountFor(p, owner))
  {
    if stale == [] {
      SameSeats(t, t, owner, period, AmountFor(p, owner));
    } else {
      var init, id := stale[..|stale| - 1], stale[|stale| - 1];
      ReapFrees(p, t, init, owner, period);
      ReapKeepsOk(p, t, init);
      ReapOneFrees(p, t, AfterReap(t, init), id, AfterReap(t, stale), owner, period);
    }
  }

  lemma ReapOneFrees(p: Policy, t: Tables, before: Tables, id: JobId, t': Tables, owner: string, period: int)
    requires TablesOk(p, before) && Capped(p, before) && Freed(t, before, owner, period, AmountFor(p, owner))
    requires t' == Log(
      if Is(before, id, Running) then Released(SetJob(before, id, before.jobs[id].(status := Failed)), id) else before,
      id, "job.failed")
    ensures Capped(p, t') && Freed(t, t', owner, period, AmountFor(p, owner))
  {
    if Is(before, id, Running) {
      ReleaseKeepsOk(p, before, id, Failed);
      ReleaseFrees(p, before, id, Failed, owner, period);
      FreedTwice(t, before, Released(SetJob(before, id, before.jobs[id].(status := Failed)), id),
        owner, period, AmountFor(p, owner));
    }
  }

  // ------------------------------------------------------------------ every step

  ghost predicate Moved(p: Policy, t: Tables, t': Tables, owner: string, period: int, limit: nat) {
    && Capped(p, t')
    && (Took(t, t', owner, period, AmountFor(p, owner), limit) || Freed(t, t', owner, period, AmountFor(p, owner)))
  }

  lemma NothingMoved(p: Policy, t: Tables, owner: string, period: int, limit: nat)
    requires Capped(p, t)
    ensures Moved(p, t, t, owner, period, limit)
  {
    SameSeats(t, t, owner, period, AmountFor(p, owner));
  }

  /** A new status, the same holdings. */
  lemma RestatusMoves(p: Policy, t: Tables, t': Tables, id: JobId, job: Job, owner: string, period: int, limit: nat)
    requires Capped(p, t) && id in t.jobs && t'.jobs == t.jobs[id := job] && t'.ledger == t.ledger
    requires job.owner == t.jobs[id].owner && job.period == t.jobs[id].period && job.reserved == t.jobs[id].reserved
    ensures Moved(p, t, t', owner, period, limit)
  {
    HoldersPut(t, t', id, job, owner, period);
    SameSeats(t, t', owner, period, AmountFor(p, owner));
  }

  lemma ReleaseMoves(p: Policy, t: Tables, t': Tables, id: JobId, status: Status, owner: string, period: int,
                     limit: nat)
    requires TablesOk(p, t) && Capped(p, t) && id in t.jobs
    requires var gone := Released(SetJob(t, id, t.jobs[id].(status := status)), id);
      t'.jobs == gone.jobs && t'.ledger == gone.ledger
    ensures Moved(p, t, t', owner, period, limit)
  {
    ReleaseKeepsOk(p, t, id, status);
    ReleaseFrees(p, t, id, status, owner, period);
  }

  /** A reservation as the API makes it for this principal. */
  ghost predicate OwnReservation(p: Policy, job: Job, r: Option<Reservation>) {
    && (r.Some? ==>
        && job.period == Some(r.value.period) && job.reserved == HeldUnder(r)
        && r.value.limit == p.LimitFor(job.owner) && r.value.amount == AmountFor(p, job.owner))
    && (r.None? ==> job.reserved == 0)
  }

  lemma ReserveMoves(p: Policy, t: Tables, t': Tables, id: JobId, job: Job, r: Option<Reservation>,
                     owner: string, period: int, limit: nat)
    requires Capped(p, t) && Reserve(t, job.owner, r).Some? && p.LimitFor(owner) == Some(limit)
    requires (id in t.jobs ==> t.jobs[id].reserved == 0) && OwnReservation(p, job, r)
    requires t'.jobs == t.jobs[id := job] && t'.ledger == Reserve(t, job.owner, r).value.ledger
    ensures Moved(p, t, t', owner, period, limit)
  {
    ReserveTakes(p, t, id, job, r, owner, period, limit);
    SameTables(t', SetJob(Reserve(t, job.owner, r).value, id, job), owner, period);
    assert job.reserved <= AmountFor(p, job.owner);
  }

  lemma SameTables(a: Tables, b: Tables, owner: string, period: int)
    requires a.jobs == b.jobs && a.ledger == b.ledger
    ensures Spent(a, owner, period) == Spent(b, owner, period) && Holders(a, owner, period) == Holders(b, owner, period)
  {
  }

  lemma SubmitSeats(p: Policy, s: System, step: Step, owner: string, period: int, limit: nat)
    requires Capped(p, s.tables) && Possible(s, step) && step.Submit? && p.LimitFor(owner) == Some(limit)
    ensures Moved(p, s.tables, Next(p, s, step).tables, owner, period, limit)
  {
    var r := ReservationOf(p, step.owner, step.metered, step.period);
    var t' := Next(p, s, step).tables;
    if CreationOf(s.tables, step.owner, step.key, r).Created? {
      var job := NewJob(step.owner, step.metered, step.key, step.hash, r, step.createdAt);
      assert t'.jobs == s.tables.jobs[step.id := job];
      ReserveMoves(p, s.tables, t', step.id, job, r, owner, period, limit);
    } else {
      NothingMoved(p, s.tables, owner, period, limit);
    }
  }

  lemma CallSeats(p: Policy, s: System, step: Step, owner: string, period: int, limit: nat)
    requires Inv(p, s) && Capped(p, s.tables) && Possible(s, step) && (step.BeforeCall? || step.AfterCall?)
    requires p.LimitFor(owner) == Some(limit)
    ensures Moved(p, s.tables, Next(p, s, step).tables, owner, period, limit)
  {
    var t, g := s.tables, s.guards[step.id];
    assert GuardOk(p, t, step.id, g);
    assert JobOk(p, t, t.jobs[step.id]);
    if step.AfterCall? {
      ReportFrees(p, t, step.id, step.tokens, owner, period);
    } else if g.limit.Some? && g.reserved == 0 && Fits(t, g.owner, g.period, p.ReservationFor(g.limit), g.limit.value) {
      ExtendTakes(p, t, step.id, g.limit.value, owner, period, limit);
    } else {
      NothingMoved(p, t, owner, period, limit);
    }
  }

  lemma RetriedHolds(p: Policy, t: Tables, id: JobId, owner: string, period: int)
    requires TablesOk(p, t) && Is(t, id, Failed) && t.jobs[id].owner == owner
    ensures t.jobs[id].reserved == 0
    ensures var r := RetryReservation(p, t, id, owner, period); OwnReservation(p, RetriedJob(t.jobs[id], r), r)
  {
    assert JobOk(p, t, t.jobs[id]);
  }

  lemma RetrySeats(p: Policy, s: System, step: Step, owner: string, period: int, limit: nat)
    requires Inv(p, s) && Capped(p, s.tables) && step.RetryFailed? && p.LimitFor(owner) == Some(limit)
    ensures Moved(p, s.tables, Next(p, s, step).tables, owner, period, limit)
  {
    var t, t' := s.tables, Next(p, s, step).tables;
    var r := RetryReservation(p, t, step.id, step.owner, step.period);
    if RetryWins(t, step.id, step.owner, r) {
      RetriedHolds(p, t, step.id, step.owner, step.period);
      var job := RetriedJob(t.jobs[step.id], r);
      assert t'.jobs == t.jobs[step.id := job];
      ReserveMoves(p, t, t', step.id, job, r, owner, period, limit);
    } else {
      NothingMoved(p, t, owner, period, limit);
    }
  }

  lemma LeaveSeats(p: Policy, s: System, step: Step, owner: string, period: int, limit: nat)
    requires Inv(p, s) && Capped(p, s.tables) && Possible(s, step)
    requires step.Cancel? || step.Finish? || step.Interrupt? || step.RetryLater?
    ensures Moved(p, s.tables, Next(p, s, step).tables, owner, period, limit)
  {
    var t, t' := s.tables, Next(p, s, step).tables;
    match step
    case Finish(id, status, _) =>
      if Is(t, id, Running) { ReleaseMoves(p, t, t', id, status, owner, period, limit); }
      else { NothingMoved(p, t, owner, period, limit); }
    case Cancel(id) =>
      if Is(t, id, Queued) { ReleaseMoves(p, t, t', id, Cancelled, owner, period, limit); }
      else if t' == t { NothingMoved(p, t, owner, period, limit); }
      else { RestatusMoves(p, t, t', id, t'.jobs[id], owner, period, limit); }
    case Interrupt(id) =>
      if t' == t { NothingMoved(p, t, owner, period, limit); }
      else { RestatusMoves(p, t, t', id, t'.jobs[id], owner, period, limit); }
    case RetryLater(id, _) =>
      if t' == t { NothingMoved(p, t, owner, period, limit); }
      else { RestatusMoves(p, t, t', id, t'.jobs[id], owner, period, limit); }
  }

  lemma StepSeats(p: Policy, s: System, step: Step, owner: string, period: int, limit: nat)
    requires Inv(p, s) && Capped(p, s.tables) && Possible(s, step) && p.LimitFor(owner) == Some(limit)
    ensures Moved(p, s.tables, Next(p, s, step).tables, owner, period, limit)
  {
    var t, t' := s.tables, Next(p, s, step).tables;
    match step
    case Submit(_, _, _, _, _, _, _) => SubmitSeats(p, s, step, owner, period, limit);
    case Select(_, _) => NothingMoved(p, t, owner, period, limit);
    case Claim(worker, now) =>
      if t' == t { NothingMoved(p, t, owner, period, limit); }
      else { RestatusMoves(p, t, t', s.picked[worker], t'.jobs[s.picked[worker]], owner, period, limit); }
    case BeforeCall(_) => CallSeats(p, s, step, owner, period, limit);
    case AfterCall(_, _) => CallSeats(p, s, step, owner, period, limit);
    case Reap(stale) => ReapFrees(p, t, stale, owner, period);
    case RetryFailed(_, _, _) => RetrySeats(p, s, step, owner, period, limit);
    case _ => LeaveSeats(p, s, step, owner, period, limit);
  }

  // ------------------------------------------------------------------ every run

  lemma {:induction false} EveryRunIsSeated(p: Policy, steps: seq<Step>, states: seq<System>, i: nat, owner: string,
                                            period: int, limit: nat)
    requires IsRun(p, steps, states) && i < |states| && p.LimitFor(owner) == Some(limit)
    ensures Capped(p, states[i].tables) && Seated(p, states[i].tables, owner, period, limit)
  {
    if i == 0 {
      assert Holders(EMPTY.tables, owner, period) == 0;
      assert AmountFor(p, owner) * 0 == 0;
    } else {
      EveryRunIsSeated(p, steps, states, i - 1, owner, period, limit);
      EveryRunConserves(p, steps, states, i - 1);
      StepSeats(p, states[i - 1], steps[i - 1], owner, period, limit);
      SeatsMove(p, states[i - 1].tables, states[i].tables, owner, period, limit);
    }
  }

  /** So many reservations fit into the limit. */
  function Places(p: Policy, owner: string, limit: nat): (n: nat)
    requires p.LimitFor(owner) == Some(limit)
    ensures AmountFor(p, owner) >= 1 && n * AmountFor(p, owner) <= limit < (n + 1) * AmountFor(p, owner)
  {
    var r := AmountFor(p, owner);
    assert limit == (limit / r) * r + limit % r;
    limit / r
  }

  /** No more jobs hold a reservation at once than reservations fit into the limit. */
  lemma HoldersFit(p: Policy, steps: seq<Step>, states: seq<System>, i: nat, owner: string, period: int, limit: nat)
    requires IsRun(p, steps, states) && i < |states| && p.LimitFor(owner) == Some(limit)
    ensures Holders(states[i].tables, owner, period) <= Places(p, owner, limit)
  {
    EveryRunIsSeated(p, steps, states, i, owner, period, limit);
    FewEnough(Holders(states[i].tables, owner, period), Places(p, owner, limit), AmountFor(p, owner), limit);
  }

  lemma FewEnough(held: nat, places: nat, amount: nat, limit: nat)
    requires amount * held <= limit < (places + 1) * amount
    ensures held <= places
  {
    assert held * amount == amount * held;
    if held > places { Scaled(places + 1, held, amount); }
  }

  /** The overshoot bound with nothing supposed about how many jobs hold a reservation. */
  lemma OvershootOfPolicy(p: Policy, steps: seq<Step>, states: seq<System>, i: nat, owner: string, period: int,
                          limit: nat, call: nat)
    requires IsRun(p, steps, states) && i < |states| && p.LimitFor(owner) == Some(limit) && call >= 1
    requires forall k :: 0 <= k < |steps| ==> CallsAtMost(steps[k], call)
    ensures Bounded(states[i].tables, owner, period, limit, Places(p, owner, limit), call)
    ensures Spent(states[i].tables, owner, period) <= limit + Places(p, owner, limit) * (call - 1)
  {
    var n := Places(p, owner, limit);
    forall k | 0 <= k < |states| ensures Holders(states[k].tables, owner, period) <= n {
      HoldersFit(p, steps, states, k, owner, period, limit);
    }
    OvershootBound(p, steps, states, i, owner, period, limit, n, call);
    Scaled(n - Holders(states[i].tables, owner, period), n, call - 1);
  }
}
