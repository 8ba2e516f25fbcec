/** Whether the documented bound holds, that a principal overshoots its limit by at most one call: a run
    that reaches the true bound, for every limit and reservation, and with it the exact condition. */
module OneCallBound {
  import opened Options
  import opened Ledger
  import opened Runs
  import opened Conservation
  import opened Overshoot
  import opened Seats

  /** `most` jobs of one principal, calls of at most `call` tokens, and room for the reservations. */
  datatype Setting = Setting(p: Policy, owner: string, period: int, limit: nat, most: nat, call: nat) {
    function Amount(): nat {
      AmountFor(p, owner)
    }

    ghost predicate Valid() {
      p.LimitFor(owner) == Some(limit) && most >= 1 && call >= 1 && most * Amount() <= limit
    }

    /** What a job has to use up before it holds one last token. */
    function Spare(): nat {
      if Amount() == 0 then 0 else Amount() - 1
    }

    function RowIn(t: Tables): Row {
      RowOf(t, owner, period)
    }

    ghost function HoldersIn(t: Tables): nat {
      Holders(t, owner, period)
    }
  }

  ghost predicate Ends(p: Policy, steps: seq<Step>, states: seq<System>, s: System) {
    IsRun(p, steps, states) && states[|steps|] == s
  }

  ghost predicate Within(c: Setting, steps: seq<Step>, states: seq<System>) {
    && (forall i :: 0 <= i < |steps| ==> CallsAtMost(steps[i], c.call))
    && forall i :: 0 <= i < |states| ==> c.HoldersIn(states[i].tables) <= c.most
  }

  /** A run to `s` with calls of at most `call` tokens and at most `most` holders at any moment. */
  ghost predicate CanReach(c: Setting, s: System) {
    exists steps, states: seq<System> :: Ends(c.p, steps, states, s) && Within(c, steps, states)
  }

  lemma ReachedIsSound(c: Setting, s: System)
    requires CanReach(c, s)
    ensures Inv(c.p, s)
  {
    var steps, states: seq<System> :| Ends(c.p, steps, states, s) && Within(c, steps, states);
    EveryRunConserves(c.p, steps, states, |steps|);
  }

  lemma OneMoreStep(c: Setting, s: System, step: Step)
    requires CanReach(c, s) && Possible(s, step) && CallsAtMost(step, c.call)
    requires c.HoldersIn(Next(c.p, s, step).tables) <= c.most
    ensures CanReach(c, Next(c.p, s, step))
  {
    var steps, states: seq<System> :| Ends(c.p, steps, states, s) && Within(c, steps, states);
    var s' := Next(c.p, s, step);
    assert Ends(c.p, steps + [step], states + [s'], s');
    assert Within(c, steps + [step], states + [s']);
  }

  // ------------------------------------------------------------------ one job

  /** One of the principal's running jobs holds `n` tokens, and its guard knows. */
  ghost predicate Holding(c: Setting, s: System, id: JobId, n: nat, calling: bool) {
    && id in s.tables.jobs && id in s.guards
    && s.tables.jobs[id].owner == c.owner && s.tables.jobs[id].period == Some(c.period)
        && s.tables.jobs[id].reserved == n
    && s.tables.jobs[id].status.Running? && s.tables.jobs[id].metered
    && s.guards[id] == Guard(c.owner, c.period, Some(c.limit), n, calling)
  }

  /** Only this job and the principal's row may have changed. */
  ghost predicate Others(s: System, s': System, id: JobId) {
    && s'.tables.jobs.Keys == s.tables.jobs.Keys + {id}
    && (forall i :: i in s.tables.jobs && i != id ==> s'.tables.jobs[i] == s.tables.jobs[i])
    && (forall i :: i in s.guards && i != id ==> i in s'.guards && s'.guards[i] == s.guards[i])
  }

  lemma OthersHold(c: Setting, s: System, s': System, id: JobId, other: JobId, n: nat, calling: bool)
    requires Others(s, s', id) && other != id && Holding(c, s, other, n, calling)
    ensures Holding(c, s', other, n, calling)
  {
    assert other in s'.tables.jobs.Keys;
  }

  lemma OthersTwice(a: System, b: System, d: System, id: JobId)
    requires Others(a, b, id) && Others(b, d, id)
    ensures Others(a, d, id)
  {
    forall i | i in a.tables.jobs && i != id
      ensures d.tables.jobs[i] == a.tables.jobs[i]
    {
      assert i in b.tables.jobs.Keys && i in d.tables.jobs.Keys;
    }
  }

  lemma Submitted(c: Setting, s: System, id: JobId) returns (s': System)
    requires c.Valid() && CanReach(c, s) && id !in s.tables.jobs
    requires Spent(s.tables, c.owner, c.period) + c.Amount() <= c.limit && c.HoldersIn(s.tables) < c.most
    ensures CanReach(c, s') && Others(s, s', id) && s'.guards == s.guards
    ensures s'.tables.jobs[id] == Job(c.owner, true, None, "", Queued, Some(c.period), c.Amount(), false, 0, None, 0)
    ensures c.RowIn(s'.tables) == Row(c.RowIn(s.tables).used, c.RowIn(s.tables).reserved + c.Amount())
    ensures c.HoldersIn(s'.tables) == c.HoldersIn(s.tables) + 1
  {
    var submit := Submit(id, c.owner, true, None, "", c.period, 0);
    s' := Next(c.p, s, submit);
    HoldersPut(s.tables, s'.tables, id, s'.tables.jobs[id], c.owner, c.period);
    OneMoreStep(c, s, submit);
  }

  lemma Claimed(c: Setting, s: System, id: JobId) returns (s': System)
    requires c.Valid() && CanReach(c, s) && id in s.tables.jobs
    requires s.tables.jobs[id] == Job(c.owner, true, None, "", Queued, Some(c.period), c.Amount(), false, 0, None, 0)
    ensures CanReach(c, s') && Others(s, s', id) && Holding(c, s', id, c.Amount(), false)
    ensures s'.tables.jobs[id] == s.tables.jobs[id].(status := Running)
    ensures s'.tables.ledger == s.tables.ledger && c.HoldersIn(s'.tables) == c.HoldersIn(s.tables)
  {
    ReachedIsWithin(c, s);
    var picked := Next(c.p, s, Select(0, id));
    OneMoreStep(c, s, Select(0, id));
    s' := Next(c.p, picked, Claim(0, 0));
    HoldersPut(picked.tables, s'.tables, id, s.tables.jobs[id].(status := Running), c.owner, c.period);
    OneMoreStep(c, picked, Claim(0, 0));
  }

  lemma ReachedIsWithin(c: Setting, s: System)
    requires CanReach(c, s)
    ensures c.HoldersIn(s.tables) <= c.most
  {
    var steps, states: seq<System> :| Ends(c.p, steps, states, s) && Within(c, steps, states);
    assert c.HoldersIn(states[|steps|].tables) <= c.most;
  }

  /** A new job is submitted and claimed. */
  lemma Started(c: Setting, s: System, id: JobId) returns (s': System)
    requires c.Valid() && CanReach(c, s) && id !in s.tables.jobs
    requires Spent(s.tables, c.owner, c.period) + c.Amount() <= c.limit && c.HoldersIn(s.tables) < c.most
    ensures CanReach(c, s') && Others(s, s', id) && Holding(c, s', id, c.Amount(), false)
    ensures c.RowIn(s'.tables) == Row(c.RowIn(s.tables).used, c.RowIn(s.tables).reserved + c.Amount())
    ensures c.HoldersIn(s'.tables) == c.HoldersIn(s.tables) + 1
  {
    var m := Submitted(c, s, id);
    s' := Claimed(c, m, id);
    OthersTwice(s, m, s', id);
  }

  /** It begins a call it has tokens for. */
  lemma Called(c: Setting, s: System, id: JobId, n: nat) returns (s': System)
    requires c.Valid() && CanReach(c, s) && Holding(c, s, id, n, false) && n >= 1
    ensures CanReach(c, s') && Others(s, s', id) && Holding(c, s', id, n, true) && s'.tables == s.tables
  {
    ReachedIsWithin(c, s);
    s' := Next(c.p, s, BeforeCall(id));
    OneMoreStep(c, s, BeforeCall(id));
  }

  lemma ReportedTables(c: Setting, s: System, id: JobId, n: nat, tokens: nat)
    requires Inv(c.p, s) && Holding(c, s, id, n, true) && (c.owner, c.period) in s.tables.ledger
    requires 1 <= tokens && n >= 1
    ensures c.RowIn(s.tables).reserved >= Min(tokens, n)
    ensures var t := Recorded(s.tables, id, c.owner, c.period, tokens, Min(tokens, n));
      && t.jobs == s.tables.jobs[id := s.tables.jobs[id].(reserved := n - Min(tokens, n))]
      && c.RowIn(t) == Row(c.RowIn(s.tables).used + tokens, c.RowIn(s.tables).reserved - Min(tokens, n))
  {
    RowCoversJob(c.p, s.tables, id);
  }

  /** It reports the call. */
  lemma Reported(c: Setting, s: System, id: JobId, n: nat, tokens: nat) returns (s': System)
    requires c.Valid() && CanReach(c, s) && Holding(c, s, id, n, true) && 1 <= tokens <= c.call && n >= 1
    requires (c.owner, c.period) in s.tables.ledger
    ensures CanReach(c, s') && Others(s, s', id) && Holding(c, s', id, n - Min(tokens, n), false)
    ensures c.RowIn(s.tables).reserved >= Min(tokens, n)
    ensures c.RowIn(s'.tables) == Row(c.RowIn(s.tables).used + tokens, c.RowIn(s.tables).reserved - Min(tokens, n))
    ensures c.HoldersIn(s'.tables) == c.HoldersIn(s.tables) - if tokens >= n then 1 else 0
  {
    ReachedIsSound(c, s);
    ReachedIsWithin(c, s);
    ReportedTables(c, s, id, n, tokens);
    s' := Next(c.p, s, AfterCall(id, tokens));
    HoldersPut(s.tables, s'.tables, id, s'.tables.jobs[id], c.owner, c.period);
    OneMoreStep(c, s, AfterCall(id, tokens));
  }

  /** A whole call. */
  lemma OneCall(c: Setting, s: System, id: JobId, n: nat, tokens: nat) returns (s': System)
    requires c.Valid() && CanReach(c, s) && Holding(c, s, id, n, false) && 1 <= tokens <= c.call && n >= 1
    ensures CanReach(c, s') && Others(s, s', id) && Holding(c, s', id, n - Min(tokens, n), false)
    ensures c.RowIn(s.tables).reserved >= Min(tokens, n)
    ensures c.RowIn(s'.tables) == Row(c.RowIn(s.tables).used + tokens, c.RowIn(s.tables).reserved - Min(tokens, n))
    ensures c.HoldersIn(s'.tables) == c.HoldersIn(s.tables) - if tokens >= n then 1 else 0
  {
    var m := Called(c, s, id, n);
    LedgerHas(c, m, id, n, true);
    s' := Reported(c, m, id, n, tokens);
    OthersTwice(s, m, s', id);
  }

  lemma LedgerHas(c: Setting, s: System, id: JobId, n: nat, calling: bool)
    requires CanReach(c, s) && Holding(c, s, id, n, calling)
    ensures (c.owner, c.period) in s.tables.ledger
  {
    ReachedIsSound(c, s);
    assert JobOk(c.p, s.tables, s.tables.jobs[id]);
  }

  lemma FinishedTables(c: Setting, s: System, id: JobId, n: nat)
    requires Inv(c.p, s) && Holding(c, s, id, n, false) && (c.owner, c.period) in s.tables.ledger
    ensures c.RowIn(s.tables).reserved >= n
    ensures var t := AfterFinish(s.tables, id, Succeeded, "job.succeeded");
      && t.jobs == s.tables.jobs[id := s.tables.jobs[id].(status := Succeeded, reserved := 0)]
      && c.RowIn(t) == Row(c.RowIn(s.tables).used, c.RowIn(s.tables).reserved - n)
  {
    RowCoversJob(c.p, s.tables, id);
  }

  /** It ends and gives back what it still holds. */
  lemma Finished(c: Setting, s: System, id: JobId, n: nat) returns (s': System)
    requires c.Valid() && CanReach(c, s) && Holding(c, s, id, n, false)
    ensures CanReach(c, s') && Others(s, s', id) && c.RowIn(s.tables).reserved >= n
    ensures c.RowIn(s'.tables) == Row(c.RowIn(s.tables).used, c.RowIn(s.tables).reserved - n)
    ensures c.HoldersIn(s'.tables) == c.HoldersIn(s.tables) - if n > 0 then 1 else 0
  {
    ReachedIsSound(c, s);
    ReachedIsWithin(c, s);
    LedgerHas(c, s, id, n, false);
    FinishedTables(c, s, id, n);
    var finish := Finish(id, Succeeded, "job.succeeded");
    s' := Next(c.p, s, finish);
    HoldersPut(s.tables, s'.tables, id, s'.tables.jobs[id], c.owner, c.period);
    OneMoreStep(c, s, finish);
  }

  // ------------------------------------------------------------------ tokens used up beforehand

  /** `u` tokens have been used, one job after the other, and nobody holds anything. */
  ghost predicate UsedUp(c: Setting, s: System, u: nat) {
    && CanReach(c, s) && c.RowIn(s.tables) == Row(u, 0) && c.HoldersIn(s.tables) == 0
    && forall id: nat :: id in s.tables.jobs ==> id < u
  }

  lemma FirstToken(c: Setting, s: System, id: JobId) returns (s': System)
    requires c.Valid() && CanReach(c, s) && id !in s.tables.jobs
    requires Spent(s.tables, c.owner, c.period) + c.Amount() <= c.limit && c.HoldersIn(s.tables) < c.most
    ensures CanReach(c, s') && Others(s, s', id) && Holding(c, s', id, c.Spare(), false)
    ensures c.HoldersIn(s'.tables) == c.HoldersIn(s.tables) + if c.Spare() > 0 then 1 else 0
    ensures c.RowIn(s'.tables) == Row(c.RowIn(s.tables).used + 1, c.RowIn(s.tables).reserved + c.Spare())
  {
    var m := Started(c, s, id);
    s' := OneCall(c, m, id, c.Amount(), 1);
    OthersTwice(s, m, s', id);
  }

  /** A job of one token's work, from submission to its end. */
  lemma OneShortJob(c: Setting, s: System, id: JobId) returns (s': System)
    requires c.Valid() && CanReach(c, s) && id !in s.tables.jobs
    requires Spent(s.tables, c.owner, c.period) + c.Amount() <= c.limit && c.HoldersIn(s.tables) < c.most
    ensures CanReach(c, s') && Others(s, s', id) && c.HoldersIn(s'.tables) == c.HoldersIn(s.tables)
    ensures c.RowIn(s'.tables) == Row(c.RowIn(s.tables).used + 1, c.RowIn(s.tables).reserved)
  {
    var m := FirstToken(c, s, id);
    s' := Finished(c, m, id, c.Spare());
    OthersTwice(s, m, s', id);
  }

  lemma UseOne(c: Setting, s: System, u: nat) returns (s': System)
    requires c.Valid() && UsedUp(c, s, u) && u + c.Amount() <= c.limit
    ensures UsedUp(c, s', u + 1)
  {
    s' := OneShortJob(c, s, u);
    NoOtherIds(s, s', u, u);
  }

  lemma NoOtherIds(s: System, s': System, id: JobId, bound: nat)
    requires Others(s, s', id) && id <= bound && forall i: nat :: i in s.tables.jobs ==> i < bound
    ensures forall i: nat :: i in s'.tables.jobs ==> i < bound + 1
  {
    forall i: nat | i in s'.tables.jobs
      ensures i < bound + 1
    {
      assert i in s.tables.jobs.Keys + {id};
    }
  }

  lemma {:induction false} UseUp(c: Setting, u: nat) returns (s: System)
    requires c.Valid() && u + c.Amount() <= c.limit + 1
    ensures UsedUp(c, s, u)
    decreases u
  {
    if u == 0 {
      s := EMPTY;
      assert Ends(c.p, [], [EMPTY], EMPTY) && Within(c, [], [EMPTY]);
    } else {
      s := UseUp(c, u - 1);
      s := UseOne(c, s, u - 1);
    }
  }

  // ------------------------------------------------------------------ everyone down to one token

  lemma {:induction false} Drain(c: Setting, s: System, id: JobId, n: nat) returns (s': System)
    requires c.Valid() && CanReach(c, s) && Holding(c, s, id, n, false) && n >= 1
    ensures CanReach(c, s') && Others(s, s', id) && Holding(c, s', id, 1, false)
    ensures c.RowIn(s.tables).reserved >= n - 1
    ensures c.RowIn(s'.tables) == Row(c.RowIn(s.tables).used + (n - 1), c.RowIn(s.tables).reserved - (n - 1))
    ensures c.HoldersIn(s'.tables) == c.HoldersIn(s.tables)
    decreases n
  {
    if n == 1 {
      s' := s;
    } else {
      var m := OneCall(c, s, id, n, 1);
      s' := Drain(c, m, id, n - 1);
      OthersTwice(s, m, s', id);
    }
  }

  /** Jobs `u` to `u + k` run, each with one token left and a call in flight. */
  ghost predicate AllCalling(c: Setting, s: System, u: nat, k: nat) {
    && CanReach(c, s) && c.RowIn(s.tables) == Row(u + k * c.Spare(), k) && c.HoldersIn(s.tables) == k
    && (forall id: nat :: id in s.tables.jobs ==> id < u + k)
    && forall id: nat :: u <= id < u + k ==> Holding(c, s, id, 1, true)
  }

  lemma OneCalling(c: Setting, s: System, id: JobId) returns (s': System)
    requires c.Valid() && CanReach(c, s) && id !in s.tables.jobs
    requires Spent(s.tables, c.owner, c.period) + c.Amount() <= c.limit && c.HoldersIn(s.tables) < c.most
    ensures CanReach(c, s') && Others(s, s', id) && Holding(c, s', id, 1, true)
    ensures c.RowIn(s'.tables) == Row(c.RowIn(s.tables).used + (c.Amount() - 1), c.RowIn(s.tables).reserved + 1)
    ensures c.HoldersIn(s'.tables) == c.HoldersIn(s.tables) + 1
  {
    var s1 := Started(c, s, id);
    var s2 := Drain(c, s1, id, c.Amount());
    s' := Called(c, s2, id, 1);
    OthersTwice(s, s1, s2, id);
    OthersTwice(s, s2, s', id);
  }

  lemma Fitting(u: nat, k: nat, most: nat, r: nat, limit: nat)
    requires r >= 1 && k < most && u + most * r <= limit
    ensures u + k * (r - 1) + k + r <= limit && (k + 1) * (r - 1) == k * (r - 1) + (r - 1)
  {
    Scaled(k + 1, most, r);
    assert (k + 1) * r == k * r + r;
    assert k * (r - 1) + k == k * r;
  }

  lemma OneMoreCalling(c: Setting, s: System, u: nat, k: nat) returns (s': System)
    requires c.Valid() && u + c.most * c.Amount() <= c.limit && k < c.most && AllCalling(c, s, u, k)
    ensures AllCalling(c, s', u, k + 1)
  {
    Fitting(u, k, c.most, c.Amount(), c.limit);
    s' := OneCalling(c, s, u + k);
    forall id: nat | u <= id < u + k + 1
      ensures Holding(c, s', id, 1, true)
    {
      if id < u + k { OthersHold(c, s, s', u + k, id, 1, true); }
    }
    NoOtherIds(s, s', u + k, u + k);
  }

  lemma {:induction false} StartAll(c: Setting, u: nat, k: nat) returns (s: System)
    requires c.Valid() && u + c.most * c.Amount() <= c.limit && k <= c.most
    ensures AllCalling(c, s, u, k)
  {
    if k == 0 {
      Scaled(1, c.most, c.Amount());
      s := UseUp(c, u);
      assert 0 * c.Spare() == 0;
    } else {
      s := StartAll(c, u, k - 1);
      s := OneMoreCalling(c, s, u, k - 1);
    }
  }

  // ------------------------------------------------------------------ everyone reports a whole call

  /** Of the jobs from `u` on, `k` have reported a whole call; the others are still calling. */
  ghost predicate SomeReported(c: Setting, s: System, u: nat, k: nat) {
    && k <= c.most && CanReach(c, s) && c.HoldersIn(s.tables) == c.most - k
    && c.RowIn(s.tables) == Row(u + c.most * c.Spare() + k * c.call, c.most - k)
    && forall id: nat :: u + k <= id < u + c.most ==> Holding(c, s, id, 1, true)
  }

  lemma OneMoreReported(c: Setting, s: System, u: nat, k: nat) returns (s': System)
    requires c.Valid() && SomeReported(c, s, u, k) && k < c.most
    ensures SomeReported(c, s', u, k + 1)
  {
    LedgerHas(c, s, u + k, 1, true);
    s' := Reported(c, s, u + k, 1, c.call);
    assert (k + 1) * c.call == k * c.call + c.call;
    forall id: nat | u + k + 1 <= id < u + c.most
      ensures Holding(c, s', id, 1, true)
    {
      OthersHold(c, s, s', u + k, id, 1, true);
    }
  }

  lemma {:induction false} ReportAll(c: Setting, s: System, u: nat, k: nat) returns (s': System)
    requires c.Valid() && SomeReported(c, s, u, k)
    ensures SomeReported(c, s', u, c.most)
    decreases c.most - k
  {
    s' := s;
    if k < c.most {
      var m := OneMoreReported(c, s, u, k);
      s' := ReportAll(c, m, u, k + 1);
    }
  }

  // ------------------------------------------------------------------ the theorem

  lemma Total(most: nat, r: nat, limit: nat, call: nat)
    requires r >= 1 && call >= 1 && most * r <= limit
    ensures (limit - most * r) + most * (r - 1) + most * call == limit + most * (call - 1)
  {
    assert most * (r - 1) == most * r - most;
    assert most * (call - 1) == most * call - most;
  }

  /** For every policy, limit and size of call, and any number of jobs whose reservations fit into the
      limit, some run reaches the overshoot bound exactly. */
  lemma BoundIsAttained(c: Setting) returns (s: System)
    requires c.Valid()
    ensures CanReach(c, s) && Spent(s.tables, c.owner, c.period) == c.limit + c.most * (c.call - 1)
  {
    var u := c.limit - c.most * c.Amount();
    s := StartAll(c, u, c.most);
    assert 0 * c.call == 0;
    s := ReportAll(c, s, u, 0);
    Total(c.most, c.Amount(), c.limit, c.call);
  }

  /** The documented bound: no run with calls of at most `call` tokens exceeds the limit by more than one. */
  ghost predicate AtMostOneCallOver(p: Policy, owner: string, period: int, limit: nat, call: nat) {
    forall steps, states: seq<System>, i: nat ::
      OneCallRun(p, steps, states, i, call) ==> Spent(states[i].tables, owner, period) <= limit + call
  }

  ghost predicate OneCallRun(p: Policy, steps: seq<Step>, states: seq<System>, i: nat, call: nat) {
    IsRun(p, steps, states) && i < |states| && forall k :: 0 <= k < |steps| ==> CallsAtMost(steps[k], call)
  }

  /** The documented bound holds if and only if every job whose reservation fits into the limit can
      overrun by a whole call but one token and together they stay within one call: with calls of
      three tokens or more, if and only if no two reservations fit. */
  lemma OneCallBoundExactly(p: Policy, owner: string, period: int, limit: nat, call: nat)
    requires p.LimitFor(owner) == Some(limit) && call >= 1
    ensures AtMostOneCallOver(p, owner, period, limit, call) <==> Places(p, owner, limit) * (call - 1) <= call
    ensures call >= 3 ==> (AtMostOneCallOver(p, owner, period, limit, call) <==> 2 * AmountFor(p, owner) > limit)
  {
    var n := Places(p, owner, limit);
    if n * (call - 1) <= call {
      forall steps, states: seq<System>, i: nat | OneCallRun(p, steps, states, i, call)
        ensures Spent(states[i].tables, owner, period) <= limit + call
      {
        OvershootOfPolicy(p, steps, states, i, owner, period, limit, call);
      }
    } else {
      var c := Setting(p, owner, period, limit, n, call);
      var s := BoundIsAttained(c);
      var steps, states: seq<System> :| Ends(p, steps, states, s) && Within(c, steps, states);
      assert OneCallRun(p, steps, states, |steps|, call);
    }
    TwoPlaces(n, call, AmountFor(p, owner), limit);
  }

  lemma TwoPlaces(n: nat, call: nat, r: nat, limit: nat)
    requires r >= 1 && n * r <= limit < (n + 1) * r && call >= 1
    ensures call >= 3 ==> (n * (call - 1) <= call <==> 2 * r > limit)
  {
    if n >= 2 {
      Scaled(2, n, r);
      Scaled(2, n, call - 1);
    } else {
      Scaled(n + 1, 2, r);
      Scaled(n, 1, call - 1);
    }
  }
}
