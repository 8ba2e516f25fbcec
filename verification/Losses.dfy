/** Runs that unbalance the books: from empty tables to a moment at which a late top-up, a late report or a
    deletion breaks them. */
module Losses {
  import opened Options
  import opened Ledger
  import opened Runs
  import opened Conservation
  import opened Overshoot
  import opened OneCallBound
  import LateWorkers
  import Leaks

  // ------------------------------------------------------------------ a failure and a retry

  /** The job as it was submitted, but for its status and what it holds. */
  function JobIn(c: Setting, status: Status, held: nat): Job {
    Job(c.owner, true, None, "", status, Some(c.period), held, false, 0, None, 0)
  }

  lemma ReapedTables(c: Setting, s: System, id: JobId, n: nat, calling: bool)
    requires Inv(c.p, s) && Holding(c, s, id, n, calling) && (c.owner, c.period) in s.tables.ledger
    ensures c.RowIn(s.tables).reserved >= n
    ensures var t := AfterReap(s.tables, [id]);
      && t.jobs == s.tables.jobs[id := s.tables.jobs[id].(status := Failed, reserved := 0)]
      && c.RowIn(t) == Row(c.RowIn(s.tables).used, c.RowIn(s.tables).reserved - n)
  {
    RowCoversJob(c.p, s.tables, id);
    assert [id][..0] == [];
    assert AfterReap(s.tables, [id][..0]) == s.tables;
  }

  /** The reaper gives a running job up; its worker does not know. */
  lemma GivenUp(c: Setting, s: System, id: JobId, n: nat, calling: bool) returns (s': System)
    requires c.Valid() && CanReach(c, s) && Holding(c, s, id, n, calling)
    ensures CanReach(c, s') && Others(s, s', id) && id !in s'.guards
    ensures s' == Next(c.p, s, Reap([id]))
    ensures s'.tables.jobs[id] == s.tables.jobs[id].(status := Failed, reserved := 0)
    ensures c.RowIn(s.tables).reserved >= n
    ensures c.RowIn(s'.tables) == Row(c.RowIn(s.tables).used, c.RowIn(s.tables).reserved - n)
    ensures c.HoldersIn(s'.tables) == c.HoldersIn(s.tables) - if n > 0 then 1 else 0
  {
    ReachedIsSound(c, s);
    ReachedIsWithin(c, s);
    LedgerHas(c, s, id, n, calling);
    ReapedTables(c, s, id, n, calling);
    s' := Next(c.p, s, Reap([id]));
    HoldersPut(s.tables, s'.tables, id, s'.tables.jobs[id], c.owner, c.period);
    OneMoreStep(c, s, Reap([id]));
  }

  /** Its owner retries it. */
  lemma Retried(c: Setting, s: System, id: JobId) returns (s': System)
    requires c.Valid() && CanReach(c, s) && id in s.tables.jobs && s.tables.jobs[id] == JobIn(c, Failed, 0)
    requires Spent(s.tables, c.owner, c.period) + c.Amount() <= c.limit && c.HoldersIn(s.tables) < c.most
    ensures CanReach(c, s') && s' == Next(c.p, s, RetryFailed(id, c.owner, c.period))
    ensures s'.tables.jobs == s.tables.jobs[id := JobIn(c, Queued, c.Amount())]
    ensures c.RowIn(s'.tables) == Row(c.RowIn(s.tables).used, c.RowIn(s.tables).reserved + c.Amount())
    ensures c.HoldersIn(s'.tables) == c.HoldersIn(s.tables) + 1
  {
    var retry := RetryFailed(id, c.owner, c.period);
    s' := Next(c.p, s, retry);
    HoldersPut(s.tables, s'.tables, id, JobIn(c, Queued, c.Amount()), c.owner, c.period);
    OneMoreStep(c, s, retry);
  }

  /** The first job has failed, and nobody holds anything. */
  lemma OneFailed(c: Setting) returns (s: System)
    requires c.Valid()
    ensures CanReach(c, s) && 0 in s.tables.jobs && s.tables.jobs[0] == JobIn(c, Failed, 0)
    ensures 0 !in s.guards && c.RowIn(s.tables) == Row(0, 0) && c.HoldersIn(s.tables) == 0
  {
    Scaled(1, c.most, c.Amount());
    var nothing := UseUp(c, 0);
    var queued := Submitted(c, nothing, 0);
    var running := Claimed(c, queued, 0);
    s := GivenUp(c, running, 0, c.Amount(), false);
  }

  /** It was retried, and waits. */
  lemma OneRetried(c: Setting) returns (s: System)
    requires c.Valid()
    ensures CanReach(c, s) && 0 in s.tables.jobs && s.tables.jobs[0] == JobIn(c, Queued, c.Amount())
    ensures c.RowIn(s.tables) == Row(0, c.Amount()) && c.HoldersIn(s.tables) == 1
  {
    Scaled(1, c.most, c.Amount());
    var failed := OneFailed(c);
    s := Retried(c, failed, 0);
  }

  // ------------------------------------------------------------------ the four ways

  /** A worker whose job was reaped tops up before its next call. */
  lemma TopUpUnbalances(c: Setting) returns (running: System, s: System)
    requires c.Valid() && 2 * c.Amount() <= c.limit && c.Amount() <= c.call
    ensures CanReach(c, running) && Holding(c, running, 0, 0, false)
    ensures CanReach(c, s) && s == Next(c.p, running, Reap([0])) && Is(s.tables, 0, Failed)
    ensures Fits(s.tables, c.owner, c.period, c.Amount(), c.limit)
    ensures s.tables.jobs[0].owner == c.owner && s.tables.jobs[0].metered
    ensures !Inv(c.p, Leaks.ToppedUp(s, 0, c.owner, c.period, c.Amount(), c.limit))
  {
    Scaled(1, c.most, c.Amount());
    var nothing := UseUp(c, 0);
    var full := Started(c, nothing, 0);
    running := OneCall(c, full, 0, c.Amount(), c.Amount());
    s := GivenUp(c, running, 0, 0, false);
    LedgerHas(c, running, 0, 0, false);
    ReachedIsSound(c, s);
    LateTopUp(c.p, s, 0, c.owner, c.period, c.Amount(), c.limit);
  }

  /** The same with the worker going on, in a reachable world: if it stops there, what it topped up is lost;
      if it reports a call of that many tokens, the books balance again. */
  lemma TopUpComesBackOrNot(c: Setting) returns (w: LateWorkers.World, l: nat)
    requires c.Valid() && 2 * c.Amount() <= c.limit && c.Amount() <= c.call
    ensures CanReach(c, w.s) && Inv(c.p, w.s) && Is(w.s.tables, 0, Failed)
    ensures LateWorkers.Tidy(w) && Leaks.NoneOwned(w) && Leaks.TopsUpForNobody(c.p, w, l)
    ensures w.late[l].guard.owner == c.owner && w.late[l].guard.period == c.period
    ensures var v := LateWorkers.Moved(c.p, w, LateWorkers.Calls(l));
      && !Inv(c.p, v.s)
      && LateWorkers.CanMove(v, LateWorkers.Stops(l)) && LateWorkers.CanMove(v, LateWorkers.Reports(l, c.Amount()))
      && LateWorkers.Lost(LateWorkers.Moved(c.p, v, LateWorkers.Stops(l)), c.owner, c.period) == c.Amount()
      && Inv(c.p, LateWorkers.Moved(c.p, v, LateWorkers.Reports(l, c.Amount())).s)
  {
    var running, s := TopUpUnbalances(c);
    var u := Reachable(c, running);
    l := |u.late|;
    w := LateWorkers.Moved(c.p, u, LateWorkers.Act(Reap([0])));
    ReapedWorker(c, u, running);
    ReachedIsSound(c, s);
    StoppedAtOnce(c, w, l);
    ReportedInFull(c, w, l);
  }

  /** A reachable state is one of a reachable world, with idle late workers. */
  lemma Reachable(c: Setting, s: System) returns (w: LateWorkers.World)
    requires CanReach(c, s)
    ensures w.s == s && LateWorkers.Tidy(w) && Leaks.Idle(w)
  {
    var steps, states: seq<System> :| Ends(c.p, steps, states, s) && Within(c, steps, states);
    var moves, worlds := Leaks.LiftRun(c.p, steps, states, |steps|);
    w := worlds[|steps|];
  }

  lemma ReapedWorker(c: Setting, u: LateWorkers.World, running: System)
    requires u.s == running && LateWorkers.Tidy(u) && Leaks.Idle(u) && Holding(c, running, 0, 0, false)
    ensures var w := LateWorkers.Moved(c.p, u, LateWorkers.Act(Reap([0])));
      && w.s == Next(c.p, running, Reap([0])) && LateWorkers.Tidy(w) && Leaks.NoneOwned(w)
      && w.late == u.late + [LateWorkers.Late(0, running.guards[0], 0, true)]
  {
    Leaks.LiftStep(c.p, u, Reap([0]));
    assert [0][..0] == [];
    assert LateWorkers.Reaped(u, [0][..0]) == u;
  }

  lemma ReportedInFull(c: Setting, w: LateWorkers.World, l: nat)
    requires Inv(c.p, w.s) && c.Valid() && Leaks.TopsUpForNobody(c.p, w, l) && LateWorkers.Tidy(w)
    requires w.late[l].job == 0 && w.late[l].guard == Guard(c.owner, c.period, Some(c.limit), 0, false)
    ensures var v := LateWorkers.Moved(c.p, w, LateWorkers.Calls(l));
      && !Inv(c.p, v.s) && LateWorkers.CanMove(v, LateWorkers.Reports(l, c.Amount()))
      && Inv(c.p, LateWorkers.Moved(c.p, v, LateWorkers.Reports(l, c.Amount())).s)
  {
    assert LateWorkers.LateTidy(w.s.tables, w.late[l]);
    Leaks.ReportGivesBack(c.p, w.s, 0, c.owner, c.period, c.Amount(), c.limit, c.Amount());
    var v := LateWorkers.Moved(c.p, w, LateWorkers.Calls(l));
    assert v.s == Leaks.ToppedUp(w.s, 0, c.owner, c.period, c.Amount(), c.limit);
  }

  lemma StoppedAtOnce(c: Setting, w: LateWorkers.World, l: nat)
    requires Inv(c.p, w.s) && LateWorkers.Tidy(w) && Leaks.NoneOwned(w) && Leaks.TopsUpForNobody(c.p, w, l)
    requires w.late[l].guard.owner == c.owner && w.late[l].guard.period == c.period
    requires LateWorkers.Amount(c.p, w.late[l]) == c.Amount()
    ensures var v := LateWorkers.Moved(c.p, w, LateWorkers.Calls(l));
      && LateWorkers.CanMove(v, LateWorkers.Stops(l))
      && LateWorkers.Lost(LateWorkers.Moved(c.p, v, LateWorkers.Stops(l)), c.owner, c.period) == c.Amount()
  {
    var v := LateWorkers.Moved(c.p, w, LateWorkers.Calls(l));
    var stop := LateWorkers.Stops(l);
    var worlds := [v, LateWorkers.Moved(c.p, v, stop)];
    assert Leaks.Follow(c.p, [stop], worlds);
    assert Leaks.Reported([stop], l, 1) == Leaks.Reported([stop], l, 0) == 0;
    Leaks.LateTopUpForGood(c.p, w, [stop], worlds, l, 1);
  }

  /** A job is reaped during a call. */
  lemma OneReaped(c: Setting) returns (calling: System, s: System)
    requires c.Valid()
    ensures CanReach(c, calling) && Holding(c, calling, 0, c.Amount(), true)
    ensures CanReach(c, s) && Is(s.tables, 0, Failed) && s.tables.jobs[0].reserved == 0 && 1 !in s.tables.jobs
    ensures s.tables.jobs[0].owner == c.owner && 0 !in s.guards
    ensures c.RowIn(s.tables) == Row(0, 0) && c.HoldersIn(s.tables) == 0
  {
    Scaled(1, c.most, c.Amount());
    var nothing := UseUp(c, 0);
    var full := Started(c, nothing, 0);
    calling := Called(c, full, 0, c.Amount());
    s := GivenUp(c, calling, 0, c.Amount(), true);
    assert 1 !in nothing.tables.jobs.Keys && 1 !in full.tables.jobs.Keys && 1 !in calling.tables.jobs.Keys;
    assert 1 !in s.tables.jobs.Keys;
  }

  /** What a late report takes from the row is missing for the job that still runs. */
  lemma ReportTakesFromOther(c: Setting, s: System, tokens: nat)
    requires c.Valid() && CanReach(c, s) && Is(s.tables, 0, Failed) && Holding(c, s, 1, c.Amount(), false)
    requires s.tables.jobs[0].reserved == 0 && s.tables.jobs[0].owner == c.owner
    requires c.RowIn(s.tables).reserved == c.Amount() && tokens >= 1
    ensures var t := Recorded(s.tables, 0, c.owner, c.period, tokens, Min(tokens, c.Amount()));
      !Inv(c.p, s.(tables := t)) && c.RowIn(t).reserved < t.jobs[1].reserved
  {
    ReachedIsSound(c, s);
    LedgerHas(c, s, 1, c.Amount(), false);
    var consumed := Min(tokens, c.Amount());
    assert consumed >= 1;
    LateReport(c.p, s, 0, c.owner, c.period, tokens, consumed);
    RecordedJob(s.tables, 0, c.owner, c.period, tokens, consumed);
    var t := Recorded(s.tables, 0, c.owner, c.period, tokens, consumed);
    assert 1 in t.jobs.Keys && t.jobs[1] == (t.jobs - {0})[1];
  }

  /** A worker whose job was reaped during a call reports it: what the call converts is taken from
      another job's reservation, whatever the call has used. */
  lemma ReportUnbalances(c: Setting, tokens: nat) returns (calling: System, s: System)
    requires c.Valid() && tokens >= 1
    ensures CanReach(c, calling) && Holding(c, calling, 0, c.Amount(), true)
    ensures CanReach(c, s) && Is(s.tables, 0, Failed) && Holding(c, s, 1, c.Amount(), false)
    ensures var t := Recorded(s.tables, 0, c.owner, c.period, tokens, Min(tokens, c.Amount()));
      !Inv(c.p, s.(tables := t)) && c.RowIn(t).reserved < t.jobs[1].reserved
  {
    var failed: System;
    Scaled(1, c.most, c.Amount());
    calling, failed := OneReaped(c);
    s := Started(c, failed, 1);
    assert 0 in s.tables.jobs.Keys;
    ReportTakesFromOther(c, s, tokens);
  }

  /** A failed job is retried between `delete_job`'s check and its deletion. What it holds by then is
      lost (`Leaks.DeletionLoses`). */
  lemma DeletionUnbalances(c: Setting) returns (failed: System, s: System)
    requires c.Valid()
    ensures CanReach(c, failed) && Is(failed.tables, 0, Failed)
    ensures CanReach(c, s) && s == Next(c.p, failed, RetryFailed(0, c.owner, c.period)) && Is(s.tables, 0, Queued)
    ensures !Inv(c.p, WithoutJob(s, 0)) && !Conserved(WithoutJob(s, 0).tables)
  {
    Scaled(1, c.most, c.Amount());
    failed := OneFailed(c);
    s := Retried(c, failed, 0);
    ReachedIsSound(c, s);
    DeletedRow(c.p, s.tables, 0);
    DeletedJob(c.p, s, 0);
  }

  /** The retried job is even claimed, and has used up its reservation: its row holds nothing and the rows
      balance without it, but its worker's next top-up unbalances them. */
  lemma OrphanUnbalances(c: Setting) returns (s: System)
    requires c.Valid() && 2 * c.Amount() <= c.limit && c.Amount() <= c.call
    ensures CanReach(c, s) && Holding(c, s, 0, 0, false)
    ensures var gone := WithoutJob(s, 0);
      && Conserved(gone.tables) && !Inv(c.p, gone) && Possible(gone, BeforeCall(0))
      && !Conserved(Next(c.p, gone, BeforeCall(0)).tables)
  {
    var waiting := OneRetried(c);
    var running := Claimed(c, waiting, 0);
    s := OneCall(c, running, 0, c.Amount(), c.Amount());
    ReachedIsSound(c, s);
    LedgerHas(c, s, 0, 0, false);
    OrphanTopsUp(c, s);
  }

  lemma OrphanTopsUp(c: Setting, s: System)
    requires c.Valid() && Inv(c.p, s) && Holding(c, s, 0, 0, false) && (c.owner, c.period) in s.tables.ledger
    requires Spent(s.tables, c.owner, c.period) + c.Amount() <= c.limit
    ensures var gone := WithoutJob(s, 0);
      && Conserved(gone.tables) && !Inv(c.p, gone) && Possible(gone, BeforeCall(0))
      && !Conserved(Next(c.p, gone, BeforeCall(0)).tables)
  {
    DeletedRow(c.p, s.tables, 0);
    DeletedJob(c.p, s, 0);
    var gone := WithoutJob(s, 0);
    var t := Next(c.p, gone, BeforeCall(0)).tables;
    assert c.RowIn(gone.tables).reserved == Sum(gone.tables.jobs, HeldFrom(c.owner, c.period));
    assert t.jobs == gone.tables.jobs;
    assert c.RowIn(t).reserved == c.RowIn(gone.tables).reserved + c.Amount();
    assert RowOf(t, c.owner, c.period).reserved != Sum(t.jobs, HeldFrom(c.owner, c.period));
  }
}
