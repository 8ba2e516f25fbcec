/** What late workers, deletions and retries leave reserved, over whole runs: what comes back, what is lost
    for good, and exactly when. */
module Leaks {
  import opened Options
  import opened Ledger
  import opened Runs
  import opened Conservation
  import opened LateWorkers

  // ------------------------------------------------------------------ every run

  const START := World(EMPTY, [])

  /** `worlds` is what the moves of one run produce, from any world. */
  ghost predicate Follow(p: Policy, moves: seq<Move>, worlds: seq<World>) {
    && |worlds| == |moves| + 1
    && forall k :: 0 <= k < |moves| ==> CanMove(worlds[k], moves[k]) && worlds[k + 1] == Moved(p, worlds[k], moves[k])
  }

  /** The sum of `s` from `i` up to `k`. */
  ghost function Total(s: seq<nat>, i: nat, k: nat): nat
    requires i <= k <= |s|
  {
    if i == k then 0 else Total(s, i, k - 1) + s[k - 1]
  }

  ghost function UnbackedEach(p: Policy, moves: seq<Move>, worlds: seq<World>, owner: string, period: int): seq<nat>
    requires Follow(p, moves, worlds)
  {
    seq(|moves|, n requires 0 <= n < |moves| => Unbacked(p, worlds[n], moves[n], owner, period))
  }

  ghost function StrandedEach(p: Policy, moves: seq<Move>, worlds: seq<World>, owner: string, period: int): seq<nat>
    requires Follow(p, moves, worlds)
  {
    seq(|moves|, n requires 0 <= n < |moves| => Stranded(worlds[n], moves[n], owner, period))
  }

  ghost function LostEach(worlds: seq<World>, owner: string, period: int): seq<int> {
    seq(|worlds|, n requires 0 <= n < |worlds| => Lost(worlds[n], owner, period))
  }

  ghost function UnbackedIn(p: Policy, moves: seq<Move>, worlds: seq<World>, i: nat, k: nat, owner: string,
                            period: int): nat
    requires Follow(p, moves, worlds) && i <= k <= |moves|
  {
    Total(UnbackedEach(p, moves, worlds, owner, period), i, k)
  }

  ghost function StrandedIn(p: Policy, moves: seq<Move>, worlds: seq<World>, i: nat, k: nat, owner: string,
                            period: int): nat
    requires Follow(p, moves, worlds) && i <= k <= |moves|
  {
    Total(StrandedEach(p, moves, worlds, owner, period), i, k)
  }

  lemma {:induction false} FallsByAtMost(a: seq<int>, u: seq<nat>, i: nat, k: nat)
    requires |a| == |u| + 1 && i <= k <= |u| && forall n :: 0 <= n < |u| ==> a[n + 1] >= a[n] - u[n]
    ensures a[k] >= a[i] - Total(u, i, k)
    decreases k
  {
    if i < k { FallsByAtMost(a, u, i, k - 1); }
  }

  lemma {:induction false} RisesByExactly(a: seq<int>, u: seq<nat>, d: seq<nat>, i: nat, k: nat)
    requires |a| == |u| + 1 == |d| + 1 && i <= k <= |u| && a[i] >= 0
    requires forall n :: i <= n < k && a[n] >= 0 && u[n] == 0 ==> a[n + 1] == a[n] + d[n]
    requires forall n :: i <= n < k ==> u[n] == 0
    ensures a[k] == a[i] + Total(d, i, k)
    decreases k
  {
    if i < k { RisesByExactly(a, u, d, i, k - 1); }
  }

  lemma {:induction false} EveryRunIsTidy(p: Policy, moves: seq<Move>, worlds: seq<World>, k: nat)
    requires Follow(p, moves, worlds) && k <= |moves| && Tidy(worlds[0])
    ensures Tidy(worlds[k])
  {
    if k > 0 {
      EveryRunIsTidy(p, moves, worlds, k - 1);
      EveryMoveAccounts(p, worlds[k - 1], moves[k - 1]);
    }
  }

  lemma OneMoveAccounts(p: Policy, moves: seq<Move>, worlds: seq<World>, k: nat, owner: string, period: int)
    requires Follow(p, moves, worlds) && k < |moves| && Tidy(worlds[0])
    ensures var w, m := worlds[k], moves[k];
      && Tidy(w) && Accounts(w, worlds[k + 1], Stranded(w, m, owner, period), Unbacked(p, w, m, owner, period),
           Clamped(w, m, owner, period), owner, period)
  {
    EveryRunIsTidy(p, moves, worlds, k);
    EveryMoveAccounts(p, worlds[k], moves[k]);
    assert MoveAccounts(p, worlds[k], moves[k]);
  }

  lemma AnyMove(p: Policy, moves: seq<Move>, worlds: seq<World>, k: nat, owner: string, period: int)
    requires Follow(p, moves, worlds) && k < |moves| && Tidy(worlds[0])
    ensures Lost(worlds[k + 1], owner, period)
      >= Lost(worlds[k], owner, period) - Unbacked(p, worlds[k], moves[k], owner, period)
  {
    OneMoveAccounts(p, moves, worlds, k, owner, period);
  }

  /** Nothing that is lost comes back, whatever anybody does, but for what reports and claims take
      without backing. */
  lemma NothingElseRecovers(p: Policy, moves: seq<Move>, worlds: seq<World>, i: nat, k: nat, owner: string,
                            period: int)
    requires Follow(p, moves, worlds) && i <= k <= |moves| && Tidy(worlds[0])
    ensures Lost(worlds[k], owner, period)
      >= Lost(worlds[i], owner, period) - UnbackedIn(p, moves, worlds, i, k, owner, period)
  {
    var a, u := LostEach(worlds, owner, period), UnbackedEach(p, moves, worlds, owner, period);
    forall n | 0 <= n < |u|
      ensures a[n + 1] >= a[n] - u[n]
    {
      AnyMove(p, moves, worlds, n, owner, period);
    }
    FallsByAtMost(a, u, i, k);
  }

  /** All that is taken from a row has something behind it. */
  ghost predicate Backed(p: Policy, moves: seq<Move>, worlds: seq<World>, i: nat, k: nat, owner: string, period: int)
    requires Follow(p, moves, worlds) && i <= k <= |moves|
  {
    forall n :: i <= n < k ==> Unbacked(p, worlds[n], moves[n], owner, period) == 0
  }

  lemma BackedMove(p: Policy, moves: seq<Move>, worlds: seq<World>, k: nat, owner: string, period: int)
    requires Follow(p, moves, worlds) && k < |moves| && Tidy(worlds[0])
    requires Lost(worlds[k], owner, period) >= 0 && Unbacked(p, worlds[k], moves[k], owner, period) == 0
    ensures Lost(worlds[k + 1], owner, period)
      == Lost(worlds[k], owner, period) + Stranded(worlds[k], moves[k], owner, period)
  {
    OneMoveAccounts(p, moves, worlds, k, owner, period);
    BackedIsNotClamped(p, worlds[k], moves[k], owner, period);
  }

  /** Then what is lost is exactly what was stranded. */
  lemma LossesAddUp(p: Policy, moves: seq<Move>, worlds: seq<World>, i: nat, k: nat, owner: string, period: int)
    requires Follow(p, moves, worlds) && i <= k <= |moves| && Tidy(worlds[0])
    requires Lost(worlds[i], owner, period) >= 0 && Backed(p, moves, worlds, i, k, owner, period)
    ensures Lost(worlds[k], owner, period)
      == Lost(worlds[i], owner, period) + StrandedIn(p, moves, worlds, i, k, owner, period)
  {
    var a, u := LostEach(worlds, owner, period), UnbackedEach(p, moves, worlds, owner, period);
    var d := StrandedEach(p, moves, worlds, owner, period);
    forall n | i <= n < k && a[n] >= 0 && u[n] == 0
      ensures a[n + 1] == a[n] + d[n]
    {
      BackedMove(p, moves, worlds, n, owner, period);
    }
    RisesByExactly(a, u, d, i, k);
  }

  /** From empty tables: a row whose takings are all backed reserves exactly what unfinished jobs hold, what
      late workers have topped up, and what was stranded. */
  lemma EveryRunAccounts(p: Policy, moves: seq<Move>, worlds: seq<World>, k: nat, owner: string, period: int)
    requires Follow(p, moves, worlds) && worlds[0] == START && k <= |moves|
    requires Backed(p, moves, worlds, 0, k, owner, period)
    ensures Beyond(worlds[k].s.tables, owner, period)
      == Owned(worlds[k].late, owner, period) + StrandedIn(p, moves, worlds, 0, k, owner, period)
  {
    assert LiveJobs(EMPTY.tables) == map[];
    LossesAddUp(p, moves, worlds, 0, k, owner, period);
  }

  // ------------------------------------------------------------------ a late worker's tokens

  /** Nobody late has tokens of its own. */
  ghost predicate NoneOwned(w: World) {
    forall l :: 0 <= l < |w.late| ==> w.late[l].own == 0
  }

  lemma {:induction false} NoneOwnedSums(late: seq<Late>, owner: string, period: int)
    requires forall l :: 0 <= l < |late| ==> late[l].own == 0
    ensures Owned(late, owner, period) == 0
  {
    if late != [] { NoneOwnedSums(late[..|late| - 1], owner, period); }
  }

  /** Balanced books have lost nothing. */
  lemma BalancedHasLostNothing(p: Policy, w: World, owner: string, period: int)
    requires Inv(p, w.s) && NoneOwned(w)
    ensures Lost(w, owner, period) == 0
  {
    var t := w.s.tables;
    forall id | id in t.jobs
      ensures LiveJobs(t)[id] == t.jobs[id]
    {
      assert JobOk(p, t, t.jobs[id]);
    }
    assert LiveJobs(t) == t.jobs;
    NoneOwnedSums(w.late, owner, period);
  }

  /** The tokens that worker `l` reports. */
  ghost function Reported(moves: seq<Move>, l: nat, k: nat): nat
    requires k <= |moves|
  {
    if k == 0 then 0
    else
      Reported(moves, l, k - 1)
        + if moves[k - 1].Reports? && moves[k - 1].l == l then moves[k - 1].tokens else 0
  }

  predicate StopsIt(m: Move, l: nat) {
    (m.Stops? || m.Ends?) && m.l == l
  }

  /** From now on worker `l` tops up no more, and on its row everything is backed and nothing but its own
      end strands anything. */
  ghost predicate LeftAlone(p: Policy, moves: seq<Move>, worlds: seq<World>, l: nat, k: nat, owner: string,
                            period: int)
    requires Follow(p, moves, worlds) && k <= |moves|
  {
    forall n :: 0 <= n < k ==> LeavesAlone(p, worlds[n], moves[n], l, owner, period)
  }

  predicate LeavesAlone(p: Policy, w: World, m: Move, l: nat, owner: string, period: int)
    requires CanMove(w, m)
  {
    && Unbacked(p, w, m, owner, period) == 0
    && (Stranded(w, m, owner, period) == 0 || StopsIt(m, l))
    && (m == Calls(l) ==> !TopsUp(p, w, w.late[l]))
  }

  predicate IsBy(m: Move, l: nat) {
    (m.Calls? || m.Reports? || m.Ends? || m.Stops?) && m.l == l
  }

  lemma {:induction false} ReapedAppends(w: World, stale: seq<JobId>)
    ensures |w.late| <= |Reaped(w, stale).late| && Reaped(w, stale).late[..|w.late|] == w.late
  {
    if stale != [] { ReapedAppends(w, stale[..|stale| - 1]); }
  }

  lemma OthersStay(p: Policy, w: World, m: Move, l: nat)
    requires CanMove(w, m) && l < |w.late|
    ensures |w.late| <= |Moved(p, w, m).late|
    ensures !IsBy(m, l) ==> Moved(p, w, m).late[l] == w.late[l]
  {
    if m.Act? && m.step.Reap? {
      ReapedAppends(w, m.step.stale);
      assert Reaped(w, m.step.stale).late[..|w.late|][l] == w.late[l];
    }
  }

  lemma {:induction false} LateNeverShrinks(p: Policy, moves: seq<Move>, worlds: seq<World>, l: nat, k: nat)
    requires Follow(p, moves, worlds) && k <= |moves| && l < |worlds[0].late|
    ensures l < |worlds[k].late|
  {
    if k > 0 {
      LateNeverShrinks(p, moves, worlds, l, k - 1);
      OthersStay(p, worlds[k - 1], moves[k - 1], l);
    }
  }

  /** How worker `l` stands after `told` tokens of reports, having had `amount` of its own. */
  ghost predicate Stands(w: World, l: nat, guard: Guard, amount: nat, told: nat, lost: int) {
    && l < |w.late|
    && var x, left := w.late[l], amount - Min(told, amount);
    && x.guard.owner == guard.owner && x.guard.period == guard.period
    && (if x.on then x.own == x.guard.reserved == left else x.own == 0)
    && Lost(w, guard.owner, guard.period) == lost + if x.on then 0 else left
  }

  lemma StandsOn(p: Policy, w: World, m: Move, l: nat, guard: Guard, amount: nat, told: nat, lost: int)
    requires Tidy(w) && CanMove(w, m) && Stands(w, l, guard, amount, told, lost) && lost >= 0
    requires LeavesAlone(p, w, m, l, guard.owner, guard.period)
    ensures Stands(Moved(p, w, m), l, guard, amount,
      told + if m.Reports? && m.l == l then m.tokens else 0, lost)
  {
    var owner, period := guard.owner, guard.period;
    EveryMoveAccounts(p, w, m);
    assert MoveAccounts(p, w, m);
    assert Accounts(w, Moved(p, w, m), Stranded(w, m, owner, period), Unbacked(p, w, m, owner, period),
      Clamped(w, m, owner, period), owner, period);
    BackedIsNotClamped(p, w, m, owner, period);
    OthersStay(p, w, m, l);
  }

  /** What a late worker with tokens of its own leaves behind: of what it had topped up exactly what it did
      not report, held by the worker while it goes on and lost once it stops. */
  lemma {:induction false} LateWorkerLeaves(p: Policy, moves: seq<Move>, worlds: seq<World>, l: nat, k: nat)
    requires Follow(p, moves, worlds) && k <= |moves| && Tidy(worlds[0]) && l < |worlds[0].late|
    requires var x := worlds[0].late[l];
      && x.on && x.own == x.guard.reserved && Lost(worlds[0], x.guard.owner, x.guard.period) >= 0
      && LeftAlone(p, moves, worlds, l, k, x.guard.owner, x.guard.period)
    ensures var x := worlds[0].late[l];
      Stands(worlds[k], l, x.guard, x.own, Reported(moves, l, k), Lost(worlds[0], x.guard.owner, x.guard.period))
    decreases k
  {
    if k > 0 {
      var x := worlds[0].late[l];
      LateWorkerLeaves(p, moves, worlds, l, k - 1);
      EveryRunIsTidy(p, moves, worlds, k - 1);
      StandsOn(p, worlds[k - 1], moves[k - 1], l, x.guard, x.own, Reported(moves, l, k - 1),
        Lost(worlds[0], x.guard.owner, x.guard.period));
    }
  }

  /** The job has ended or was deleted, so it will not give a top-up back. */
  predicate TopsUpForNobody(p: Policy, w: World, l: nat) {
    CanMove(w, Calls(l)) && TopsUp(p, w, w.late[l]) && !Live(w.s.tables, w.late[l].job)
  }

  /** A late top-up for a job that has ended, from balanced books. When the worker has stopped, what is lost
      is exactly what it topped up and did not report: all of it if and only if it reported nothing, none
      of it if and only if it reported that much. */
  lemma LateTopUpForGood(p: Policy, w: World, moves: seq<Move>, worlds: seq<World>, l: nat, k: nat)
    requires Inv(p, w.s) && Tidy(w) && NoneOwned(w) && TopsUpForNobody(p, w, l)
    requires Follow(p, moves, worlds) && worlds[0] == Moved(p, w, Calls(l)) && k <= |moves|
    requires LeftAlone(p, moves, worlds, l, k, w.late[l].guard.owner, w.late[l].guard.period)
    ensures l < |worlds[k].late|
    ensures var g, amount, told := w.late[l].guard, Amount(p, w.late[l]), Reported(moves, l, k);
      var lost := Lost(worlds[k], g.owner, g.period);
      if worlds[k].late[l].on then lost == 0 && worlds[k].late[l].own == amount - Min(told, amount)
      else lost == amount - Min(told, amount) && (lost == amount <==> told == 0) && (lost == 0 <==> told >= amount)
  {
    var g := w.late[l].guard;
    BalancedHasLostNothing(p, w, g.owner, g.period);
    EveryMoveAccounts(p, w, Calls(l));
    assert MoveAccounts(p, w, Calls(l));
    assert Accounts(w, worlds[0], Stranded(w, Calls(l), g.owner, g.period), Unbacked(p, w, Calls(l), g.owner, g.period),
      Clamped(w, Calls(l), g.owner, g.period), g.owner, g.period);
    LateWorkerLeaves(p, moves, worlds, l, k);
  }

  /** A worker that stops leaves what it still has for good: it comes back only by what is unbacked. */
  lemma StoppingLoses(p: Policy, moves: seq<Move>, worlds: seq<World>, l: nat, i: nat, k: nat)
    requires Follow(p, moves, worlds) && Tidy(worlds[0]) && i < k <= |moves| && StopsIt(moves[i], l)
    ensures var x := worlds[i].late[l]; var owner, period := x.guard.owner, x.guard.period;
      && (Lost(worlds[i], owner, period) >= 0 ==>
           Lost(worlds[i + 1], owner, period) == Lost(worlds[i], owner, period) + x.own)
      && Lost(worlds[k], owner, period)
           >= Lost(worlds[i + 1], owner, period) - UnbackedIn(p, moves, worlds, i + 1, k, owner, period)
  {
    var g := worlds[i].late[l].guard;
    OneMoveAccounts(p, moves, worlds, i, g.owner, g.period);
    NothingElseRecovers(p, moves, worlds, i + 1, k, g.owner, g.period);
  }

  /** Deleting a job loses what its row holds and no worker has: all of it if the job waits, none of it at
      first if it runs. Exactly that stays lost, and what is stranded later, while takings are backed; else
      no less than what is unbacked takes. */
  lemma DeletionLoses(p: Policy, w: World, id: JobId, moves: seq<Move>, worlds: seq<World>, k: nat, owner: string,
                      period: int)
    requires Inv(p, w.s) && Tidy(w) && NoneOwned(w) && id in w.s.tables.jobs
    requires Follow(p, moves, worlds) && worlds[0] == Moved(p, w, Delete(id)) && k <= |moves|
    ensures var held := if Is(w.s.tables, id, Queued) then LiveAt(w.s.tables, id, owner, period) else 0;
      var lost := Lost(worlds[k], owner, period);
      && lost >= held - UnbackedIn(p, moves, worlds, 0, k, owner, period)
      && (Backed(p, moves, worlds, 0, k, owner, period) ==>
           lost == held + StrandedIn(p, moves, worlds, 0, k, owner, period))
  {
    BalancedHasLostNothing(p, w, owner, period);
    EveryMoveAccounts(p, w, Delete(id));
    assert MoveAccounts(p, w, Delete(id));
    assert Accounts(w, worlds[0], Stranded(w, Delete(id), owner, period), 0, false, owner, period);
    DeletionStrands(p, w, id, owner, period);
    NothingElseRecovers(p, moves, worlds, 0, k, owner, period);
    if Backed(p, moves, worlds, 0, k, owner, period) { LossesAddUp(p, moves, worlds, 0, k, owner, period); }
  }

  lemma DeletionStrands(p: Policy, w: World, id: JobId, owner: string, period: int)
    requires Inv(p, w.s) && id in w.s.tables.jobs
    ensures Stranded(w, Delete(id), owner, period)
      == if Is(w.s.tables, id, Queued) then LiveAt(w.s.tables, id, owner, period) else 0
  {
    var t := w.s.tables;
    assert JobOk(p, t, t.jobs[id]);
    assert id in w.s.guards ==> GuardOk(p, t, id, w.s.guards[id]);
    assert Is(t, id, Running) && t.jobs[id].metered ==> id in w.s.guards;
  }

  // ------------------------------------------------------------------ who takes what is not its own

  /** No worker that has a claim holds more than its job's row. */
  ghost predicate HoldersHold(s: System) {
    forall id :: id in s.guards ==> id in s.tables.jobs && s.guards[id].reserved <= s.tables.jobs[id].reserved
  }

  /** A late worker's report for a job that runs again takes from its new worker. */
  predicate Meddles(w: World, m: Move)
    requires CanMove(w, m)
  {
    m.Reports? && Is(w.s.tables, w.late[m.l].job, Running)
  }

  /** Only late workers take what is not backed, until one has meddled with a running job. */
  lemma OnlyLateTake(p: Policy, w: World, m: Move, owner: string, period: int)
    requires Tidy(w) && HoldersHold(w.s) && CanMove(w, m)
    ensures Unbacked(p, w, m, owner, period) > 0 ==> m.Reports? || m.Calls?
  {
    if m.Act? && m.step.AfterCall? { assert GuardTidy(w.s.tables, m.step.id, w.s.guards[m.step.id]); }
  }

  lemma HoldersStay(p: Policy, w: World, m: Move)
    requires Tidy(w) && HoldersHold(w.s) && CanMove(w, m) && !Meddles(w, m)
    ensures HoldersHold(Moved(p, w, m).s)
  {
    match m
    case Act(step) =>
      if step.Reap? { HoldersStayReaped(w, step.stale); } else { HoldersStayAt(p, w, step); }
    case Ends(_, step) => HoldersStayAt(p, w, step);
    case Delete(_) =>
    case Calls(_) => assert forall id :: id in w.s.guards ==> GuardTidy(w.s.tables, id, w.s.guards[id]);
    case Reports(_, _) => assert forall id :: id in w.s.guards ==> GuardTidy(w.s.tables, id, w.s.guards[id]);
    case Stops(_) =>
  }

  lemma HoldersStayAt(p: Policy, w: World, step: Step)
    requires Tidy(w) && HoldersHold(w.s) && Possible(w.s, step) && !step.Reap?
    ensures HoldersHold(Next(p, w.s, step))
  {
    if step.BeforeCall? || step.AfterCall? {
      CallersHold(p, w, step);
    } else if step.Claim? || step.Finish? || step.Interrupt? || step.RetryLater? {
      WorkersHold(p, w, step);
    } else {
      RunningJobsStay(p, w, step);
    }
  }

  lemma WorkersHold(p: Policy, w: World, step: Step)
    requires Tidy(w) && HoldersHold(w.s) && Possible(w.s, step)
    requires step.Claim? || step.Finish? || step.Interrupt? || step.RetryLater?
    ensures HoldersHold(Next(p, w.s, step))
  {
  }

  lemma RunningJobsStay(p: Policy, w: World, step: Step)
    requires Tidy(w) && HoldersHold(w.s) && Possible(w.s, step)
    requires step.Submit? || step.Select? || step.Cancel? || step.RetryFailed?
    ensures HoldersHold(Next(p, w.s, step))
  {
    forall id | id in w.s.guards
      ensures id in Next(p, w.s, step).tables.jobs
      ensures w.s.guards[id].reserved <= Next(p, w.s, step).tables.jobs[id].reserved
    {
      assert GuardTidy(w.s.tables, id, w.s.guards[id]);
    }
  }

  lemma CallersHold(p: Policy, w: World, step: Step)
    requires Tidy(w) && HoldersHold(w.s) && Possible(w.s, step) && (step.BeforeCall? || step.AfterCall?)
    ensures HoldersHold(Next(p, w.s, step))
  {
    var s', id := Next(p, w.s, step), step.id;
    assert GuardTidy(w.s.tables, id, w.s.guards[id]);
    assert s'.guards[id].reserved <= s'.tables.jobs[id].reserved;
    forall i | i in s'.guards
      ensures i in s'.tables.jobs && s'.guards[i].reserved <= s'.tables.jobs[i].reserved
    {
      assert i != id ==> s'.guards[i] == w.s.guards[i] && s'.tables.jobs[i] == w.s.tables.jobs[i];
    }
  }

  lemma {:induction false} HoldersStayReaped(w: World, stale: seq<JobId>)
    requires Tidy(w) && HoldersHold(w.s)
    ensures HoldersHold(Reaped(w, stale).s)
  {
    if stale != [] { HoldersStayReaped(w, stale[..|stale| - 1]); }
  }

  // ------------------------------------------------------------------ runs without late moves

  /** Late workers that have done nothing yet. */
  ghost predicate Idle(w: World) {
    forall l :: 0 <= l < |w.late| ==> w.late[l].own == 0 && w.late[l].job in w.s.tables.jobs
  }

  lemma {:induction false} ReapedIsIdle(w: World, stale: seq<JobId>)
    requires Idle(w) && Tidy(w)
    ensures Idle(Reaped(w, stale)) && Reaped(w, stale).s.tables.jobs.Keys == w.s.tables.jobs.Keys
  {
    if stale != [] {
      var m, id := Reaped(w, stale[..|stale| - 1]), stale[|stale| - 1];
      ReapedIsIdle(w, stale[..|stale| - 1]);
      ReapIsEven(w, stale[..|stale| - 1]);
      assert id in m.s.guards ==> GuardTidy(m.s.tables, id, m.s.guards[id]);
      assert forall l :: 0 <= l < |m.late| ==> m.late[l].job in m.s.tables.jobs.Keys;
    }
  }

  lemma LiftStep(p: Policy, w: World, step: Step)
    requires Idle(w) && Tidy(w) && Possible(w.s, step)
    ensures CanMove(w, Act(step)) && Moved(p, w, Act(step)).s == Next(p, w.s, step)
    ensures Idle(Moved(p, w, Act(step))) && Tidy(Moved(p, w, Act(step)))
  {
    assert forall id :: id in w.s.guards ==> GuardTidy(w.s.tables, id, w.s.guards[id]);
    EveryMoveAccounts(p, w, Act(step));
    if step.Reap? {
      ReapedIsIdle(w, step.stale);
      ReapedIsReap(w, step.stale);
    } else {
      JobsStay(p, w.s, step);
    }
  }

  lemma JobsStay(p: Policy, s: System, step: Step)
    requires Possible(s, step) && !step.Reap?
    ensures s.tables.jobs.Keys <= Next(p, s, step).tables.jobs.Keys
  {
  }

  /** Every run of `Runs` is one of these, in which late workers stay idle. */
  lemma {:induction false} LiftRun(p: Policy, steps: seq<Step>, states: seq<System>, k: nat)
    returns (moves: seq<Move>, worlds: seq<World>)
    requires IsRun(p, steps, states) && k <= |steps|
    ensures Follow(p, moves, worlds) && |moves| == k && worlds[0] == START && worlds[k].s == states[k]
    ensures Idle(worlds[k]) && Tidy(worlds[k])
  {
    if k == 0 {
      moves, worlds := [], [START];
    } else {
      moves, worlds := LiftRun(p, steps, states, k - 1);
      var w, step := worlds[k - 1], steps[k - 1];
      LiftStep(p, w, step);
      moves, worlds := moves + [Act(step)], worlds + [Moved(p, w, Act(step))];
    }
  }

  // ------------------------------------------------------------------ at once

  function ToppedUp(s: System, id: JobId, owner: string, period: int, amount: nat, limit: nat): System {
    s.(tables := Extended(s.tables, id, owner, period, amount, limit))
  }

  /** The call that a late top-up was made for balances the books again if and only if it used all of it;
      otherwise the row keeps exactly the rest. */
  lemma ReportGivesBack(p: Policy, s: System, id: JobId, owner: string, period: int, amount: nat, limit: nat,
                        tokens: nat)
    requires Inv(p, s) && OwnerIs(s.tables, id, owner) && !Live(s.tables, id) && amount >= 1
    requires id in s.tables.jobs ==> s.tables.jobs[id].metered
    requires p.LimitFor(owner) == Some(limit) && Fits(s.tables, owner, period, amount, limit)
    ensures var s1 := ToppedUp(s, id, owner, period, amount, limit);
      var s2 := s1.(tables := Recorded(s1.tables, id, owner, period, tokens, Min(tokens, amount)));
      && !Inv(p, s1) && Beyond(s1.tables, owner, period) == amount
      && Beyond(s2.tables, owner, period) == amount - Min(tokens, amount) && (Inv(p, s2) <==> tokens >= amount)
  {
    var s1 := ToppedUp(s, id, owner, period, amount, limit);
    var c := Min(tokens, amount);
    var s2 := s1.(tables := Recorded(s1.tables, id, owner, period, tokens, c));
    LateTopUp(p, s, id, owner, period, amount, limit);
    BalancedHasLostNothing(p, World(s, []), owner, period);
    ExtendedJob(s.tables, id, owner, period, amount, limit);
    RecordedJob(s1.tables, id, owner, period, tokens, c);
    BeyondShifts(s.tables, s1.tables, id, owner, period);
    BeyondShifts(s1.tables, s2.tables, id, owner, period);
    if tokens >= amount {
      GivenBackIsBalanced(p, s, s1, s2, id, owner, period, amount, limit, tokens);
    } else if Inv(p, s2) {
      BalancedHasLostNothing(p, World(s2, []), owner, period);
      assert false;
    }
  }

  lemma GivenBackIsBalanced(p: Policy, s: System, s1: System, s2: System, id: JobId, owner: string, period: int,
                            amount: nat, limit: nat, tokens: nat)
    requires Inv(p, s) && !Live(s.tables, id) && Fits(s.tables, owner, period, amount, limit) && tokens >= amount
    requires s1 == ToppedUp(s, id, owner, period, amount, limit)
    requires s2 == s1.(tables := Recorded(s1.tables, id, owner, period, tokens, amount))
    ensures Inv(p, s2)
  {
    var t, t2 := s.tables, s2.tables;
    assert id in t.jobs ==> JobOk(p, t, t.jobs[id]);
    ExtendedJob(t, id, owner, period, amount, limit);
    RecordedJob(s1.tables, id, owner, period, tokens, amount);
    assert t2.jobs == t.jobs;
    assert forall o, per :: RowOf(t2, o, per).reserved == RowOf(t, o, per).reserved;
    assert t2.ledger.Keys == t.ledger.Keys;
    assert forall i :: i in t.jobs ==> JobOk(p, t, t.jobs[i]);
    GuardsSurvive(p, s, s2, {});
  }

  // ------------------------------------------------------------------ the job's own row

  /** The row of a succeeded or cancelled job changes exactly when a late worker of that job tops up, or
      reports tokens while the row holds some. */
  lemma EndedRowChanges(p: Policy, w: World, m: Move, id: JobId)
    requires Tidy(w) && CanMove(w, m) && m != Delete(id)
    requires Is(w.s.tables, id, Succeeded) || Is(w.s.tables, id, Cancelled)
    ensures id in Moved(p, w, m).s.tables.jobs
    ensures Moved(p, w, m).s.tables.jobs[id] != w.s.tables.jobs[id] <==>
      match m
      case Calls(l) => w.late[l].job == id && TopsUp(p, w, w.late[l])
      case Reports(l, tokens) =>
        w.late[l].job == id && Consumed(w.late[l].guard, tokens) > 0 && w.s.tables.jobs[id].reserved > 0
      case _ => false
  {
    assert id in w.s.guards ==> GuardTidy(w.s.tables, id, w.s.guards[id]);
    match m
    case Act(step) =>
      if step.Reap? { ReapedLeavesEnded(w, step.stale, id); } else { StepLeavesEnded(p, w.s, step, id); }
    case Ends(_, step) => StepLeavesEnded(p, w.s, step, id);
    case Delete(_) =>
    case Calls(_) =>
    case Reports(_, _) =>
    case Stops(_) =>
  }

  lemma StepLeavesEnded(p: Policy, s: System, step: Step, id: JobId)
    requires Possible(s, step) && id !in s.guards && (Is(s.tables, id, Succeeded) || Is(s.tables, id, Cancelled))
    requires !step.Reap?
    ensures var s' := Next(p, s, step); id in s'.tables.jobs && s'.tables.jobs[id] == s.tables.jobs[id]
  {
    if step.RetryFailed? && step.id != id { RetryLeavesOthers(p, s, step, id); }
  }

  lemma RetryLeavesOthers(p: Policy, s: System, step: Step, id: JobId)
    requires step.RetryFailed? && step.id != id && id in s.tables.jobs
    ensures id in Next(p, s, step).tables.jobs && Next(p, s, step).tables.jobs[id] == s.tables.jobs[id]
  {
  }

  lemma {:induction false} ReapedLeavesEnded(w: World, stale: seq<JobId>, id: JobId)
    requires id in w.s.tables.jobs && !w.s.tables.jobs[id].status.Running?
    ensures id in Reaped(w, stale).s.tables.jobs && Reaped(w, stale).s.tables.jobs[id] == w.s.tables.jobs[id]
  {
    if stale != [] { ReapedLeavesEnded(w, stale[..|stale| - 1], id); }
  }
}
