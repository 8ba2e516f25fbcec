/** Workers that outlive their claims: a reaped job's worker goes on calling, topping up and reporting, and
    so does the worker of a deleted job. An account of every ledger row, and what each move does to it. */
module LateWorkers {
  import opened Options
  import opened Ledger
  import opened Runs
  import opened Conservation

  // ------------------------------------------------------------------ workers without a claim

  /** A worker that lost its claim on `job`, and still has its guard in memory. `own` is what its row
      reserves for it and for no job: a reaped job gave its tokens back, a deleted one did not. */
  datatype Late = Late(job: JobId, guard: Guard, own: nat, on: bool)

  datatype World = World(s: System, late: seq<Late>)

  datatype Move =
    | Act(step: Step)
    | Delete(id: JobId)
    | Calls(l: nat)
    | Reports(l: nat, tokens: nat)
    | Ends(l: nat, step: Step)
    | Stops(l: nat)

  predicate Leaves(step: Step, id: JobId) {
    (step.Finish? || step.Interrupt? || step.RetryLater?) && step.id == id
  }

  /** A new job's id was never in use. */
  predicate NewId(w: World, step: Step) {
    step.Submit? ==> step.id !in w.s.guards && forall l :: 0 <= l < |w.late| ==> w.late[l].job != step.id
  }

  predicate CanMove(w: World, m: Move) {
    match m
    case Act(step) => Possible(w.s, step) && NewId(w, step)
    case Delete(id) => id in w.s.tables.jobs
    case Calls(l) => l < |w.late| && w.late[l].on && !w.late[l].guard.inFlight
    case Reports(l, _) => l < |w.late| && w.late[l].on && w.late[l].guard.inFlight
    case Ends(l, step) => l < |w.late| && w.late[l].on && Leaves(step, w.late[l].job) && Possible(w.s, step)
    case Stops(l) => l < |w.late| && w.late[l].on
  }

  /** The worker that loses its claim on `id`, if one has it. */
  function Outlives(s: System, id: JobId, own: nat): seq<Late> {
    if id in s.guards then [Late(id, s.guards[id], own, true)] else []
  }

  function ReapOne(t: Tables, id: JobId): Tables {
    Log(if Is(t, id, Running) then Released(SetJob(t, id, t.jobs[id].(status := Failed)), id) else t, id, "job.failed")
  }

  function Reaped(w: World, stale: seq<JobId>): World {
    if stale == [] then w
    else
      var m, id := Reaped(w, stale[..|stale| - 1]), stale[|stale| - 1];
      World(m.s.(tables := ReapOne(m.s.tables, id), guards := m.s.guards - {id}), m.late + Outlives(m.s, id, 0))
  }

  function Live(t: Tables, id: JobId): bool {
    id in t.jobs && !t.jobs[id].status.Terminal()
  }

  function Amount(p: Policy, x: Late): nat {
    p.ReservationFor(x.guard.limit)
  }

  /** Whether the worker's next call reserves more. */
  predicate TopsUp(p: Policy, w: World, x: Late) {
    && x.guard.limit.Some? && x.guard.reserved == 0
    && Fits(w.s.tables, x.guard.owner, x.guard.period, Amount(p, x), x.guard.limit.value)
  }

  /** Whether its job has the same tokens, and will give them back. */
  predicate Shares(t: Tables, x: Late) {
    Live(t, x.job) && t.jobs[x.job].period == Some(x.guard.period)
  }

  function AfterCalls(p: Policy, w: World, l: nat): World
    requires l < |w.late|
  {
    var x := w.late[l];
    var g := x.guard;
    if g.limit.None? || g.reserved > 0 then w.(late := w.late[l := x.(guard := g.(inFlight := true))])
    else if TopsUp(p, w, x) then
      var own := if Shares(w.s.tables, x) then 0 else Amount(p, x);
      World(w.s.(tables := Extended(w.s.tables, x.job, g.owner, g.period, Amount(p, x), g.limit.value)),
            w.late[l := x.(guard := g.(reserved := Amount(p, x), inFlight := true), own := own)])
    else w
  }

  function Consumed(g: Guard, tokens: nat): nat {
    Min(tokens, g.reserved)
  }

  function Told(g: Guard, tokens: nat): Guard {
    g.(reserved := g.reserved - Consumed(g, tokens), inFlight := false)
  }

  function AfterReports(w: World, l: nat, tokens: nat): World
    requires l < |w.late|
  {
    var x := w.late[l];
    var g, c := x.guard, Consumed(x.guard, tokens);
    World(w.s.(tables := Recorded(w.s.tables, x.job, g.owner, g.period, tokens, c)),
          w.late[l := x.(guard := Told(g, tokens), own := Decrement(x.own, c))])
  }

  function Stopped(x: Late): Late {
    x.(own := 0, on := false)
  }

  /** What the row keeps for the worker of a deleted job. */
  function KeptFor(s: System, id: JobId): nat {
    if id in s.guards then Min(s.guards[id].reserved, HeldBy(s.tables, id)) else 0
  }

  /** A late worker that finishes or requeues its job does so to whoever has the job by then. */
  function Moved(p: Policy, w: World, m: Move): World
    requires CanMove(w, m)
  {
    match m
    case Act(step) => if step.Reap? then Reaped(w, step.stale) else w.(s := Next(p, w.s, step))
    case Delete(id) =>
      World(WithoutJob(w.s, id).(guards := w.s.guards - {id}), w.late + Outlives(w.s, id, KeptFor(w.s, id)))
    case Calls(l) => AfterCalls(p, w, l)
    case Reports(l, tokens) => AfterReports(w, l, tokens)
    case Ends(l, step) =>
      World(Next(p, w.s, step), w.late[l := Stopped(w.late[l])] + Outlives(w.s, w.late[l].job, 0))
    case Stops(l) => w.(late := w.late[l := Stopped(w.late[l])])
  }

  /** Reaping changes the tables as in `Runs`; all that is new is that the workers go on. */
  lemma {:induction false} ReapedIsReap(w: World, stale: seq<JobId>)
    ensures Reaped(w, stale).s
      == w.s.(tables := AfterReap(w.s.tables, stale), guards := w.s.guards - set i | i in stale)
  {
    if stale == [] {
      assert w.s.guards - (set i | i in stale) == w.s.guards;
    } else {
      var init, id := stale[..|stale| - 1], stale[|stale| - 1];
      ReapedIsReap(w, init);
      assert stale == init + [id];
      assert w.s.guards - (set i | i in stale) == w.s.guards - (set i | i in init) - {id};
    }
  }

  // ------------------------------------------------------------------ the account

  /** Unfinished jobs; a finished one gives nothing back. */
  function LiveJobs(t: Tables): map<JobId, Job> {
    map id | id in t.jobs :: if t.jobs[id].status.Terminal() then t.jobs[id].(reserved := 0) else t.jobs[id]
  }

  function LiveAt(t: Tables, id: JobId, owner: string, period: int): nat {
    if Live(t, id) then HeldFrom(owner, period)(t.jobs[id]) else 0
  }

  function OwnAt(x: Late, owner: string, period: int): nat {
    if x.guard.owner == owner && x.guard.period == period then x.own else 0
  }

  function Owned(late: seq<Late>, owner: string, period: int): nat {
    if late == [] then 0
    else Owned(late[..|late| - 1], owner, period) + OwnAt(late[|late| - 1], owner, period)
  }

  /** What a row reserves beyond the claims of unfinished jobs. */
  ghost function Beyond(t: Tables, owner: string, period: int): int {
    RowOf(t, owner, period).reserved - Sum(LiveJobs(t), HeldFrom(owner, period))
  }

  /** What nobody can give back any more; below zero, what is reserved for others and missing. */
  ghost function Lost(w: World, owner: string, period: int): int {
    Beyond(w.s.tables, owner, period) - Owned(w.late, owner, period)
  }

  predicate JobTidy(job: Job) {
    (job.metered ==> job.period.Some?) && (job.reserved > 0 ==> job.metered)
  }

  predicate GuardTidy(t: Tables, id: JobId, g: Guard) {
    && Is(t, id, Running) && t.jobs[id].metered
    && t.jobs[id].owner == g.owner && t.jobs[id].period == Some(g.period)
  }

  predicate LateTidy(t: Tables, x: Late) {
    && x.own <= x.guard.reserved && (!x.on ==> x.own == 0)
    && (x.job in t.jobs ==> t.jobs[x.job].owner == x.guard.owner && t.jobs[x.job].metered)
  }

  /** Who is who; nothing about amounts. */
  ghost predicate Tidy(w: World) {
    && (forall id :: id in w.s.tables.jobs ==> JobTidy(w.s.tables.jobs[id]))
    && (forall id :: id in w.s.guards ==> GuardTidy(w.s.tables, id, w.s.guards[id]))
    && (forall l :: 0 <= l < |w.late| ==> LateTidy(w.s.tables, w.late[l]))
  }

  lemma OtherJobs(t: Tables, t': Tables, id: JobId)
    requires t'.jobs - {id} == t.jobs - {id}
    ensures LiveJobs(t) - {id} == LiveJobs(t') - {id}
  {
    OthersOutside(t, t', id);
    var a, b := LiveJobs(t) - {id}, LiveJobs(t') - {id};
    forall i | i != id
      ensures (i in a <==> i in b) && (i in a ==> a[i] == b[i])
    {
      assert i !in {id};
    }
    assert a == b;
  }

  lemma BeyondShifts(t: Tables, t': Tables, id: JobId, owner: string, period: int)
    requires t'.jobs - {id} == t.jobs - {id}
    ensures Beyond(t', owner, period) - Beyond(t, owner, period)
      == (RowOf(t', owner, period).reserved - RowOf(t, owner, period).reserved)
         - (LiveAt(t', id, owner, period) - LiveAt(t, id, owner, period))
  {
    var w := HeldFrom(owner, period);
    SumWithout(LiveJobs(t), w, id);
    SumWithout(LiveJobs(t'), w, id);
    OtherJobs(t, t', id);
  }

  lemma OwnedMore(late: seq<Late>, x: Late, owner: string, period: int)
    ensures Owned(late + [x], owner, period) == Owned(late, owner, period) + OwnAt(x, owner, period)
  {
    assert (late + [x])[..|late|] == late;
  }

  lemma {:induction false} OwnedUpdate(late: seq<Late>, l: nat, x: Late, owner: string, period: int)
    requires l < |late|
    ensures Owned(late[l := x], owner, period)
      == Owned(late, owner, period) - OwnAt(late[l], owner, period) + OwnAt(x, owner, period)
    ensures OwnAt(late[l], owner, period) <= Owned(late, owner, period)
    decreases |late|
  {
    var init := late[..|late| - 1];
    if l < |late| - 1 {
      assert late[l := x][..|late| - 1] == init[l := x];
      OwnedUpdate(init, l, x, owner, period);
    } else {
      assert late[l := x][..|late| - 1] == init;
    }
  }

  /** In a solvent world every claim is covered by its row. */
  lemma RowCovers(w: World, id: JobId, owner: string, period: int)
    requires Lost(w, owner, period) >= 0
    ensures LiveAt(w.s.tables, id, owner, period) + Owned(w.late, owner, period)
      <= RowOf(w.s.tables, owner, period).reserved
  {
    SumWithout(LiveJobs(w.s.tables), HeldFrom(owner, period), id);
  }

  // ------------------------------------------------------------------ what moves the account

  /** What stands behind a report: the worker's own tokens and its job's. */
  function Backing(t: Tables, id: JobId, g: Guard, own: nat, c: nat): nat {
    Min(c, own) + Min(c, LiveAt(t, id, g.owner, g.period))
  }

  function At(g: Guard, amount: nat, owner: string, period: int): nat {
    if owner == g.owner && period == g.period then amount else 0
  }

  function JobIn(t: Tables, id: JobId, amount: nat, owner: string, period: int): nat {
    if id in t.jobs && t.jobs[id].owner == owner && t.jobs[id].period == Some(period) then amount else 0
  }

  /** What a job that counts in another period than the worker's loses by its report. */
  function Elsewhere(t: Tables, x: Late, c: nat, owner: string, period: int): nat {
    if owner == x.guard.owner && period == x.guard.period then 0 else Min(c, LiveAt(t, x.job, owner, period))
  }

  /** What a move takes from a row without a claim of its own to it: a report of tokens the row no longer
      reserves for this worker, or a job's claim to tokens that another period's row reserves. */
  function Unbacked(p: Policy, w: World, m: Move, owner: string, period: int): nat
    requires CanMove(w, m)
  {
    var t := w.s.tables;
    match m
    case Act(step) =>
      if step.AfterCall? then
        var g := w.s.guards[step.id];
        var c := Consumed(g, step.tokens);
        At(g, Decrement(c, Backing(t, step.id, g, 0, c)), owner, period)
      else 0
    case Reports(l, tokens) =>
      var x := w.late[l];
      var c := Consumed(x.guard, tokens);
      At(x.guard, Decrement(c, Backing(t, x.job, x.guard, x.own, c)), owner, period)
    case Calls(l) =>
      if TopsUp(p, w, w.late[l]) && Live(t, w.late[l].job) && !Shares(t, w.late[l])
      then JobIn(t, w.late[l].job, Amount(p, w.late[l]), owner, period) else 0
    case _ => 0
  }

  /** What a move leaves reserved with nobody to give it back. */
  function Stranded(w: World, m: Move, owner: string, period: int): nat
    requires CanMove(w, m)
  {
    var t := w.s.tables;
    match m
    case Delete(id) => Decrement(LiveAt(t, id, owner, period), JobIn(t, id, KeptFor(w.s, id), owner, period))
    case Ends(l, _) => OwnAt(w.late[l], owner, period)
    case Stops(l) => OwnAt(w.late[l], owner, period)
    case Reports(l, tokens) =>
      var x := w.late[l];
      var c := Consumed(x.guard, tokens);
      At(x.guard, Decrement(Backing(t, x.job, x.guard, x.own, c), c), owner, period)
        + Elsewhere(t, x, c, owner, period)
    case _ => 0
  }

  /** The `else 0` of `_decrement` is taken on this ledger row. */
  predicate Clamped(w: World, m: Move, owner: string, period: int)
    requires CanMove(w, m)
  {
    match m
    case Act(step) => step.AfterCall? && ClampedAt(w.s.tables, w.s.guards[step.id], step.tokens, owner, period)
    case Reports(l, tokens) => ClampedAt(w.s.tables, w.late[l].guard, tokens, owner, period)
    case _ => false
  }

  predicate ClampedAt(t: Tables, g: Guard, tokens: nat, owner: string, period: int) {
    g.owner == owner && g.period == period && RowOf(t, owner, period).reserved < Consumed(g, tokens)
  }

  /** The account of one move on one row: never is less lost than before but for what is unbacked, and
      what covers its claims loses exactly what is stranded. */
  ghost predicate Accounts(w: World, w': World, stranded: nat, unbacked: nat, clamped: bool, owner: string,
                           period: int)
  {
    && Lost(w', owner, period) >= Lost(w, owner, period) - unbacked
    && (Lost(w, owner, period) >= 0 && !clamped ==>
          Lost(w', owner, period) == Lost(w, owner, period) + stranded - unbacked)
  }

  ghost predicate MoveAccounts(p: Policy, w: World, m: Move)
    requires CanMove(w, m)
  {
    forall owner, period :: Accounts(w, Moved(p, w, m), Stranded(w, m, owner, period),
                                     Unbacked(p, w, m, owner, period), Clamped(w, m, owner, period), owner, period)
  }

  /** Nothing is lost, nothing taken. */
  ghost predicate Even(w: World, w': World) {
    forall owner, period :: Accounts(w, w', 0, 0, false, owner, period)
  }

  // ------------------------------------------------------------------ moves of one job

  /** A change of one job and its guard, by nobody that is late. */
  ghost predicate OnlyAt(w: World, w': World, id: JobId) {
    && w'.late == w.late && w'.s.tables.jobs - {id} == w.s.tables.jobs - {id}
    && w'.s.guards - {id} == w.s.guards - {id} && GoodAt(w', id)
  }

  /** What has to be right about one job after a change of it. */
  ghost predicate GoodAt(w: World, id: JobId) {
    && (id in w.s.tables.jobs ==> JobTidy(w.s.tables.jobs[id]))
    && (id in w.s.guards ==> GuardTidy(w.s.tables, id, w.s.guards[id]))
    && forall l :: 0 <= l < |w.late| && w.late[l].job == id ==> LateTidy(w.s.tables, w.late[l])
  }

  lemma TidyElsewhere(w: World, w': World, id: JobId)
    requires Tidy(w) && OnlyAt(w, w', id)
    ensures Tidy(w')
  {
    OthersOutside(w.s.tables, w'.s.tables, id);
    forall i ensures i != id ==> (i in w.s.guards <==> i in w'.s.guards) {
      assert i != id ==> (i in w.s.guards <==> i in w.s.guards - {id});
      assert i != id ==> (i in w'.s.guards <==> i in w'.s.guards - {id});
    }
    forall i | i in w'.s.guards
      ensures GuardTidy(w'.s.tables, i, w'.s.guards[i])
    {
      if i != id {
        assert w'.s.guards[i] == (w'.s.guards - {id})[i] == w.s.guards[i];
        assert i !in {id} && GuardTidy(w.s.tables, i, w.s.guards[i]);
      }
    }
    forall l | 0 <= l < |w'.late|
      ensures LateTidy(w'.s.tables, w'.late[l])
    {
      if w'.late[l].job != id { assert w'.late[l].job !in {id} && LateTidy(w.s.tables, w.late[l]); }
    }
    forall i | i in w'.s.tables.jobs
      ensures JobTidy(w'.s.tables.jobs[i])
    {
      if i != id { assert i !in {id}; }
    }
  }

  /** The row of a job moves with the job's claim, or keeps more. */
  ghost predicate RowFollows(t: Tables, t': Tables, id: JobId, owner: string, period: int) {
    var row, row' := RowOf(t, owner, period).reserved, RowOf(t', owner, period).reserved;
    var claim, claim' := LiveAt(t, id, owner, period), LiveAt(t', id, owner, period);
    row' - row >= claim' - claim && (row >= claim ==> row' - row == claim' - claim)
  }

  lemma Follows(w: World, w': World, id: JobId)
    requires Tidy(w) && OnlyAt(w, w', id)
    requires forall owner, period :: RowFollows(w.s.tables, w'.s.tables, id, owner, period)
    ensures Tidy(w') && Even(w, w')
  {
    TidyElsewhere(w, w', id);
    forall owner, period
      ensures Accounts(w, w', 0, 0, false, owner, period)
    {
      assert RowFollows(w.s.tables, w'.s.tables, id, owner, period);
      BeyondShifts(w.s.tables, w'.s.tables, id, owner, period);
      if Lost(w, owner, period) >= 0 { RowCovers(w, id, owner, period); }
    }
  }

  lemma SubmitIsEven(p: Policy, w: World, step: Step)
    requires Tidy(w) && CanMove(w, Act(step)) && step.Submit?
    ensures Tidy(Moved(p, w, Act(step))) && Even(w, Moved(p, w, Act(step)))
  {
    Follows(w, Moved(p, w, Act(step)), step.id);
  }

  lemma SelectIsEven(p: Policy, w: World, step: Step)
    requires Tidy(w) && CanMove(w, Act(step)) && step.Select?
    ensures Tidy(Moved(p, w, Act(step))) && Even(w, Moved(p, w, Act(step)))
  {
    assert Moved(p, w, Act(step)).s.tables == w.s.tables;
  }

  lemma ClaimIsEven(p: Policy, w: World, worker: nat, now: int)
    requires Tidy(w)
    ensures var w' := w.(s := Next(p, w.s, Claim(worker, now))); Tidy(w') && Even(w, w')
  {
    if worker in w.s.picked {
      var id := w.s.picked[worker];
      assert id in w.s.guards ==> GuardTidy(w.s.tables, id, w.s.guards[id]);
      Follows(w, w.(s := Next(p, w.s, Claim(worker, now))), id);
    }
  }

  lemma BeforeCallIsEven(p: Policy, w: World, id: JobId)
    requires Tidy(w) && Possible(w.s, BeforeCall(id))
    ensures var w' := w.(s := Next(p, w.s, BeforeCall(id))); Tidy(w') && Even(w, w')
  {
    var w', g := w.(s := Next(p, w.s, BeforeCall(id))), w.s.guards[id];
    assert GuardTidy(w.s.tables, id, g);
    var amount := p.ReservationFor(g.limit);
    if g.limit.None? || g.reserved > 0 || !Fits(w.s.tables, g.owner, g.period, amount, g.limit.value) {
      assert w'.s.tables == w.s.tables;
      Follows(w, w', id);
    } else {
      ExtendedJob(w.s.tables, id, g.owner, g.period, amount, g.limit.value);
      Follows(w, w', id);
    }
  }

  /** A top-up of a job that gives it back, if it is unfinished. */
  lemma ExtendedJob(t: Tables, id: JobId, owner: string, period: int, amount: nat, limit: nat)
    requires Fits(t, owner, period, amount, limit)
    ensures var t' := Extended(t, id, owner, period, amount, limit);
      && t'.jobs.Keys == t.jobs.Keys && t'.jobs - {id} == t.jobs - {id}
      && (id in t.jobs ==> t'.jobs[id] == t.jobs[id].(reserved := t.jobs[id].reserved + amount))
      && RowOf(t', owner, period).reserved == RowOf(t, owner, period).reserved + amount
      && forall a, b :: (a, b) != (owner, period) ==> RowOf(t', a, b) == RowOf(t, a, b)
  {
  }

  /** A job as `Released` leaves it, after a change of status. */
  lemma ReleaseAt(t: Tables, id: JobId, status: Status)
    requires Live(t, id) && status.Terminal() && JobTidy(t.jobs[id])
    ensures var job := t.jobs[id]; var t' := Released(SetJob(t, id, job.(status := status)), id);
      && t'.jobs == t.jobs[id := job.(status := status, reserved := 0)]
      && forall owner, period :: RowFollows(t, t', id, owner, period)
  {
  }

  lemma EndIsEven(w: World, w': World, id: JobId, status: Status)
    requires Tidy(w) && Live(w.s.tables, id) && status.Terminal() && w'.late == w.late
    requires var t' := Released(SetJob(w.s.tables, id, w.s.tables.jobs[id].(status := status)), id);
      w'.s.tables.jobs == t'.jobs && w'.s.tables.ledger == t'.ledger && w'.s.guards == w.s.guards - {id}
    ensures Tidy(w') && Even(w, w')
  {
    ReleaseAt(w.s.tables, id, status);
    assert forall l :: 0 <= l < |w.late| ==> LateTidy(w.s.tables, w.late[l]);
    forall owner, period
      ensures RowFollows(w.s.tables, w'.s.tables, id, owner, period)
    {
      assert RowFollows(w.s.tables, Released(SetJob(w.s.tables, id, w.s.tables.jobs[id].(status := status)), id), id,
        owner, period);
    }
    Follows(w, w', id);
  }

  lemma CancelIsEven(p: Policy, w: World, id: JobId)
    requires Tidy(w)
    ensures var w' := w.(s := Next(p, w.s, Cancel(id))); Tidy(w') && Even(w, w')
  {
    var w' := w.(s := Next(p, w.s, Cancel(id)));
    assert id in w.s.guards ==> GuardTidy(w.s.tables, id, w.s.guards[id]);
    if Is(w.s.tables, id, Queued) {
      assert w.s.guards - {id} == w.s.guards;
      EndIsEven(w, w', id, Cancelled);
    } else {
      Follows(w, w', id);
    }
  }

  /** Whoever ends the claim of a job. */
  lemma LeavingIsEven(p: Policy, w: World, step: Step, id: JobId)
    requires Tidy(w) && Possible(w.s, step) && Leaves(step, id)
    ensures var w' := w.(s := Next(p, w.s, step)); Tidy(w') && Even(w, w')
  {
    var w' := w.(s := Next(p, w.s, step));
    assert id in w.s.guards ==> GuardTidy(w.s.tables, id, w.s.guards[id]);
    if step.Finish? && Is(w.s.tables, id, Running) {
      EndIsEven(w, w', id, step.status);
    } else {
      assert !Is(w.s.tables, id, Running) ==> w.s.guards - {id} == w.s.guards;
      Follows(w, w', id);
    }
  }

  lemma RetryIsEven(p: Policy, w: World, id: JobId, owner: string, period: int)
    requires Tidy(w)
    ensures var w' := w.(s := Next(p, w.s, RetryFailed(id, owner, period))); Tidy(w') && Even(w, w')
  {
    var w' := w.(s := Next(p, w.s, RetryFailed(id, owner, period)));
    var r := RetryReservation(p, w.s.tables, id, owner, period);
    assert id in w.s.guards ==> GuardTidy(w.s.tables, id, w.s.guards[id]);
    if RetryWins(w.s.tables, id, owner, r) {
      ReservedRows(w.s.tables, owner, r);
      Follows(w, w', id);
    }
  }

  lemma ReservedRows(t: Tables, owner: string, r: Option<Reservation>)
    requires Reserve(t, owner, r).Some?
    ensures var t' := Reserve(t, owner, r).value;
      && t'.jobs == t.jobs
      && forall o, per :: RowOf(t', o, per).reserved == RowOf(t, o, per).reserved
          + if r.Some? && (o, per) == (owner, r.value.period) then HeldUnder(r) else 0
  {
  }

  /** A report takes from its row, and gives up what the job claims. */
  lemma RecordedShifts(t: Tables, id: JobId, g: Guard, tokens: nat, c: nat, owner: string, period: int)
    ensures var t' := Recorded(t, id, g.owner, g.period, tokens, c);
      Beyond(t', owner, period) == Beyond(t, owner, period) + Min(c, LiveAt(t, id, owner, period))
        - At(g, Min(c, RowOf(t, g.owner, g.period).reserved), owner, period)
  {
    RecordedJob(t, id, g.owner, g.period, tokens, c);
    BeyondShifts(t, Recorded(t, id, g.owner, g.period, tokens, c), id, owner, period);
  }

  lemma AfterCallIsTidy(p: Policy, w: World, id: JobId, tokens: nat)
    requires Tidy(w) && Possible(w.s, AfterCall(id, tokens))
    ensures Tidy(Moved(p, w, Act(AfterCall(id, tokens))))
  {
    var g := w.s.guards[id];
    var w' := Moved(p, w, Act(AfterCall(id, tokens)));
    assert GuardTidy(w.s.tables, id, g);
    RecordedJob(w.s.tables, id, g.owner, g.period, tokens, Consumed(g, tokens));
    assert forall l :: 0 <= l < |w.late| ==> LateTidy(w.s.tables, w.late[l]);
    TidyElsewhere(w, w', id);
  }

  lemma AfterCallAccounts(p: Policy, w: World, id: JobId, tokens: nat)
    requires Tidy(w) && Possible(w.s, AfterCall(id, tokens))
    ensures MoveAccounts(p, w, Act(AfterCall(id, tokens)))
  {
    var m, g := Act(AfterCall(id, tokens)), w.s.guards[id];
    var w', c := Moved(p, w, m), Consumed(g, tokens);
    assert GuardTidy(w.s.tables, id, g);
    forall owner, period
      ensures Accounts(w, w', Stranded(w, m, owner, period), Unbacked(p, w, m, owner, period),
        Clamped(w, m, owner, period), owner, period)
    {
      RecordedShifts(w.s.tables, id, g, tokens, c, owner, period);
      assert owner != g.owner || period != g.period ==> LiveAt(w.s.tables, id, owner, period) == 0;
    }
  }

  // ------------------------------------------------------------------ moves of late workers

  lemma LateChanges(w: World, l: nat, x: Late, owner: string, period: int)
    requires l < |w.late|
    ensures var w' := w.(late := w.late[l := x]);
      && Lost(w', owner, period) == Lost(w, owner, period) + OwnAt(w.late[l], owner, period) - OwnAt(x, owner, period)
      && (Tidy(w) && LateTidy(w.s.tables, x) ==> Tidy(w'))
  {
    OwnedUpdate(w.late, l, x, owner, period);
  }

  lemma LateJoins(w: World, id: JobId, s: System, own: nat, owner: string, period: int)
    ensures var w' := w.(late := w.late + Outlives(s, id, own));
      Lost(w', owner, period) == Lost(w, owner, period)
        - if id in s.guards then OwnAt(Late(id, s.guards[id], own, true), owner, period) else 0
  {
    if id in s.guards {
      OwnedMore(w.late, Late(id, s.guards[id], own, true), owner, period);
    } else {
      assert w.late + [] == w.late;
    }
  }

  lemma JoinIsTidy(w: World, id: JobId, s: System, own: nat)
    requires Tidy(w)
    requires id in s.guards ==> LateTidy(w.s.tables, Late(id, s.guards[id], own, true))
    ensures Tidy(w.(late := w.late + Outlives(s, id, own)))
  {
  }

  /** Losing a claim to a reaper or to another worker's ending costs no row anything. */
  lemma LosingIsEven(w: World, v: World, id: JobId)
    requires Tidy(w) && Tidy(v) && Even(w, v)
    requires id in v.s.tables.jobs ==>
      id in w.s.tables.jobs && v.s.tables.jobs[id].owner == w.s.tables.jobs[id].owner
      && v.s.tables.jobs[id].metered == w.s.tables.jobs[id].metered
    ensures var w' := v.(late := v.late + Outlives(w.s, id, 0)); Tidy(w') && Even(w, w')
  {
    var w' := v.(late := v.late + Outlives(w.s, id, 0));
    assert id in w.s.guards ==> GuardTidy(w.s.tables, id, w.s.guards[id]);
    JoinIsTidy(v, id, w.s, 0);
    forall owner, period
      ensures Accounts(w, w', 0, 0, false, owner, period)
    {
      LateJoins(v, id, w.s, 0, owner, period);
      assert Accounts(w, v, 0, 0, false, owner, period);
    }
  }

  lemma EvenTwice(a: World, b: World, c: World)
    requires Even(a, b) && Even(b, c)
    ensures Even(a, c)
  {
    forall owner, period
      ensures Accounts(a, c, 0, 0, false, owner, period)
    {
      assert Accounts(a, b, 0, 0, false, owner, period) && Accounts(b, c, 0, 0, false, owner, period);
    }
  }

  lemma ReapOneIsEven(w: World, id: JobId)
    requires Tidy(w)
    ensures var w' := World(w.s.(tables := ReapOne(w.s.tables, id), guards := w.s.guards - {id}),
                            w.late + Outlives(w.s, id, 0));
      Tidy(w') && Even(w, w')
  {
    var v := w.(s := w.s.(tables := ReapOne(w.s.tables, id), guards := w.s.guards - {id}));
    assert id in w.s.guards ==> GuardTidy(w.s.tables, id, w.s.guards[id]);
    if Is(w.s.tables, id, Running) {
      ReleaseAt(w.s.tables, id, Failed);
      EndIsEven(w, v, id, Failed);
    } else {
      assert w.s.guards - {id} == w.s.guards;
      Follows(w, v, id);
    }
    LosingIsEven(w, v, id);
  }

  lemma {:induction false} ReapIsEven(w: World, stale: seq<JobId>)
    requires Tidy(w)
    ensures Tidy(Reaped(w, stale)) && Even(w, Reaped(w, stale))
  {
    if stale != [] {
      var m := Reaped(w, stale[..|stale| - 1]);
      ReapIsEven(w, stale[..|stale| - 1]);
      ReapOneIsEven(m, stale[|stale| - 1]);
      EvenTwice(w, m, Reaped(w, stale));
    }
  }

  lemma ReportIsTidy(p: Policy, w: World, l: nat, tokens: nat)
    requires Tidy(w) && CanMove(w, Reports(l, tokens))
    ensures Tidy(Moved(p, w, Reports(l, tokens)))
  {
    var x, w' := w.late[l], Moved(p, w, Reports(l, tokens));
    var v := w.(s := w'.s);
    assert LateTidy(w.s.tables, x);
    RecordedJob(w.s.tables, x.job, x.guard.owner, x.guard.period, tokens, Consumed(x.guard, tokens));
    assert LateTidy(v.s.tables, w'.late[l]);
    RecordedIsTidy(w, v, x.job, x.guard, tokens, Consumed(x.guard, tokens));
    LateChanges(v, l, w'.late[l], "", 0);
  }

  lemma ReportAccounts(p: Policy, w: World, l: nat, tokens: nat)
    requires Tidy(w) && CanMove(w, Reports(l, tokens))
    ensures MoveAccounts(p, w, Reports(l, tokens))
  {
    forall owner, period
      ensures Accounts(w, Moved(p, w, Reports(l, tokens)), Stranded(w, Reports(l, tokens), owner, period),
        Unbacked(p, w, Reports(l, tokens), owner, period), Clamped(w, Reports(l, tokens), owner, period),
        owner, period)
    {
      ReportAccountsAt(p, w, l, tokens, owner, period);
    }
  }

  lemma ReportAccountsAt(p: Policy, w: World, l: nat, tokens: nat, owner: string, period: int)
    requires Tidy(w) && CanMove(w, Reports(l, tokens))
    ensures var m := Reports(l, tokens);
      Accounts(w, Moved(p, w, m), Stranded(w, m, owner, period), Unbacked(p, w, m, owner, period),
        Clamped(w, m, owner, period), owner, period)
  {
    var m, x := Reports(l, tokens), w.late[l];
    var w', c := Moved(p, w, m), Consumed(x.guard, tokens);
    var v := w.(s := w'.s);
    LateChanges(v, l, w'.late[l], owner, period);
    RecordedShifts(w.s.tables, x.job, x.guard, tokens, c, owner, period);
    assert OwnAt(x, owner, period) - OwnAt(w'.late[l], owner, period) == At(x.guard, Min(c, x.own), owner, period);
  }

  lemma RecordedIsTidy(w: World, v: World, id: JobId, g: Guard, tokens: nat, c: nat)
    requires Tidy(w) && v == w.(s := w.s.(tables := Recorded(w.s.tables, id, g.owner, g.period, tokens, c)))
    ensures Tidy(v)
  {
    RecordedJob(w.s.tables, id, g.owner, g.period, tokens, c);
    assert id in w.s.guards ==> GuardTidy(w.s.tables, id, w.s.guards[id]);
    assert forall l :: 0 <= l < |w.late| ==> LateTidy(w.s.tables, w.late[l]);
    TidyElsewhere(w, v, id);
  }

  lemma CallAccounts(p: Policy, w: World, l: nat)
    requires Tidy(w) && CanMove(w, Calls(l))
    ensures Tidy(Moved(p, w, Calls(l))) && MoveAccounts(p, w, Calls(l))
  {
    var m, x := Calls(l), w.late[l];
    var w' := Moved(p, w, m);
    assert LateTidy(w.s.tables, x);
    if TopsUp(p, w, x) {
      LateTopUpIsTidy(p, w, l);
      LateTopUpAccounts(p, w, l);
    } else {
      forall owner, period
        ensures Accounts(w, w', 0, 0, false, owner, period)
      {
        if w' != w { LateChanges(w, l, w'.late[l], owner, period); }
      }
      if w' != w { LateChanges(w, l, w'.late[l], "", 0); }
    }
  }

  lemma LateTopUpIsTidy(p: Policy, w: World, l: nat)
    requires Tidy(w) && CanMove(w, Calls(l)) && TopsUp(p, w, w.late[l])
    ensures Tidy(Moved(p, w, Calls(l)))
  {
    var x, w' := w.late[l], Moved(p, w, Calls(l));
    var v := w.(s := w'.s);
    assert LateTidy(w.s.tables, x);
    ExtendedJob(w.s.tables, x.job, x.guard.owner, x.guard.period, Amount(p, x), x.guard.limit.value);
    assert x.job in w.s.guards ==> GuardTidy(w.s.tables, x.job, w.s.guards[x.job]);
    assert forall i :: 0 <= i < |w.late| ==> LateTidy(w.s.tables, w.late[i]);
    TidyElsewhere(w, v, x.job);
    LateChanges(v, l, w'.late[l], "", 0);
  }

  lemma LateTopUpAccounts(p: Policy, w: World, l: nat)
    requires Tidy(w) && CanMove(w, Calls(l)) && TopsUp(p, w, w.late[l])
    ensures MoveAccounts(p, w, Calls(l))
  {
    var m, x := Calls(l), w.late[l];
    var w', t := Moved(p, w, m), w.s.tables;
    assert LateTidy(t, x);
    ExtendedJob(t, x.job, x.guard.owner, x.guard.period, Amount(p, x), x.guard.limit.value);
    forall owner, period
      ensures Accounts(w, w', 0, Unbacked(p, w, m, owner, period), false, owner, period)
    {
      LateChanges(w.(s := w'.s), l, w'.late[l], owner, period);
      BeyondShifts(t, w'.s.tables, x.job, owner, period);
      assert OwnAt(x, owner, period) == 0;
    }
  }

  lemma DeleteIsTidy(p: Policy, w: World, id: JobId)
    requires Tidy(w) && id in w.s.tables.jobs
    ensures Tidy(Moved(p, w, Delete(id)))
  {
    var v := w.(s := Moved(p, w, Delete(id)).s);
    assert id in w.s.guards ==> GuardTidy(w.s.tables, id, w.s.guards[id]);
    TidyElsewhere(w, v, id);
    JoinIsTidy(v, id, w.s, KeptFor(w.s, id));
  }

  lemma DeleteAccounts(p: Policy, w: World, id: JobId)
    requires Tidy(w) && id in w.s.tables.jobs
    ensures MoveAccounts(p, w, Delete(id))
  {
    forall owner, period
      ensures Accounts(w, Moved(p, w, Delete(id)), Stranded(w, Delete(id), owner, period), 0, false, owner, period)
    {
      DeleteAccountsAt(p, w, id, owner, period);
    }
  }

  lemma DeleteAccountsAt(p: Policy, w: World, id: JobId, owner: string, period: int)
    requires Tidy(w) && id in w.s.tables.jobs
    ensures Lost(Moved(p, w, Delete(id)), owner, period)
      == Lost(w, owner, period) + Stranded(w, Delete(id), owner, period)
  {
    var t, v := w.s.tables, w.(s := Moved(p, w, Delete(id)).s);
    LateJoins(v, id, w.s, KeptFor(w.s, id), owner, period);
    BeyondShifts(t, v.s.tables, id, owner, period);
    if id in w.s.guards {
      var g := w.s.guards[id];
      assert GuardTidy(t, id, g);
      assert OwnAt(Late(id, g, KeptFor(w.s, id), true), owner, period) == JobIn(t, id, KeptFor(w.s, id), owner, period);
    }
  }

  lemma StopAccounts(p: Policy, w: World, l: nat)
    requires Tidy(w) && CanMove(w, Stops(l))
    ensures Tidy(Moved(p, w, Stops(l))) && MoveAccounts(p, w, Stops(l))
  {
    var x := Stopped(w.late[l]);
    assert LateTidy(w.s.tables, w.late[l]);
    forall owner, period
      ensures Accounts(w, Moved(p, w, Stops(l)), OwnAt(w.late[l], owner, period), 0, false, owner, period)
    {
      LateChanges(w, l, x, owner, period);
    }
    LateChanges(w, l, x, "", 0);
  }

  lemma EndAccounts(p: Policy, w: World, l: nat, step: Step)
    requires Tidy(w) && CanMove(w, Ends(l, step))
    ensures Tidy(Moved(p, w, Ends(l, step))) && MoveAccounts(p, w, Ends(l, step))
  {
    var m := Ends(l, step);
    var id, w' := w.late[l].job, Moved(p, w, m);
    var v := w.(s := Next(p, w.s, step));
    var u := v.(late := v.late + Outlives(w.s, id, 0));
    LeavingIsEven(p, w, step, id);
    NextKeepsOwner(p, w.s, step, id);
    LosingIsEven(w, v, id);
    assert u.late[l] == w.late[l] && LateTidy(u.s.tables, u.late[l]);
    assert w'.late == u.late[l := Stopped(w.late[l])];
    forall owner, period
      ensures Accounts(w, w', OwnAt(w.late[l], owner, period), 0, false, owner, period)
    {
      LateChanges(u, l, Stopped(w.late[l]), owner, period);
      assert Accounts(w, u, 0, 0, false, owner, period);
    }
    LateChanges(u, l, Stopped(w.late[l]), "", 0);
  }

  lemma NextKeepsOwner(p: Policy, s: System, step: Step, id: JobId)
    requires Possible(s, step) && Leaves(step, id)
    ensures var t, t' := s.tables, Next(p, s, step).tables;
      id in t'.jobs ==>
        id in t.jobs && t'.jobs[id].owner == t.jobs[id].owner && t'.jobs[id].metered == t.jobs[id].metered
  {
  }

  /** The account of every move, in every world: what is lost never shrinks but by what is unbacked, and
      moves by exactly what is stranded and what is unbacked as long as the rows cover their claims. */
  lemma EveryMoveAccounts(p: Policy, w: World, m: Move)
    requires Tidy(w) && CanMove(w, m)
    ensures Tidy(Moved(p, w, m)) && MoveAccounts(p, w, m)
  {
    match m
    case Act(step) => ActAccounts(p, w, step);
    case Delete(id) =>
      DeleteIsTidy(p, w, id);
      DeleteAccounts(p, w, id);
    case Calls(l) => CallAccounts(p, w, l);
    case Reports(l, tokens) =>
      ReportIsTidy(p, w, l, tokens);
      ReportAccounts(p, w, l, tokens);
    case Ends(l, step) => EndAccounts(p, w, l, step);
    case Stops(l) => StopAccounts(p, w, l);
  }

  lemma ActAccounts(p: Policy, w: World, step: Step)
    requires Tidy(w) && CanMove(w, Act(step))
    ensures Tidy(Moved(p, w, Act(step))) && MoveAccounts(p, w, Act(step))
  {
    if step.AfterCall? {
      AfterCallIsTidy(p, w, step.id, step.tokens);
      AfterCallAccounts(p, w, step.id, step.tokens);
    } else {
      OrdinaryIsEven(p, w, step);
      var w' := Moved(p, w, Act(step));
      forall owner, period
        ensures Accounts(w, w', Stranded(w, Act(step), owner, period), Unbacked(p, w, Act(step), owner, period),
          Clamped(w, Act(step), owner, period), owner, period)
      {
        assert Accounts(w, w', 0, 0, false, owner, period);
      }
    }
  }

  lemma OrdinaryIsEven(p: Policy, w: World, step: Step)
    requires Tidy(w) && CanMove(w, Act(step)) && !step.AfterCall?
    ensures Tidy(Moved(p, w, Act(step))) && Even(w, Moved(p, w, Act(step)))
  {
    match step
    case Submit(_, _, _, _, _, _, _) => SubmitIsEven(p, w, step);
    case Select(_, _) => SelectIsEven(p, w, step);
    case Claim(worker, now) => ClaimIsEven(p, w, worker, now);
    case BeforeCall(id) => BeforeCallIsEven(p, w, id);
    case Cancel(id) => CancelIsEven(p, w, id);
    case Finish(id, _, _) => LeavingIsEven(p, w, step, id);
    case Interrupt(id) => LeavingIsEven(p, w, step, id);
    case RetryLater(id, _) => LeavingIsEven(p, w, step, id);
    case Reap(stale) => ReapIsEven(w, stale);
    case RetryFailed(id, owner, period) => RetryIsEven(p, w, id, owner, period);
  }

  /** As long as everything taken is backed, a row that covers its claims is never clamped. */
  lemma BackedIsNotClamped(p: Policy, w: World, m: Move, owner: string, period: int)
    requires CanMove(w, m) && Tidy(w) && Lost(w, owner, period) >= 0 && Unbacked(p, w, m, owner, period) == 0
    ensures !Clamped(w, m, owner, period)
  {
    match m
    case Act(step) =>
      if step.AfterCall? { RowCovers(w, step.id, owner, period); }
    case Reports(l, _) =>
      OwnedUpdate(w.late, l, w.late[l], owner, period);
      RowCovers(w, w.late[l].job, owner, period);
    case _ =>
  }
}
