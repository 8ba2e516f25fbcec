/** Submitting with an Idempotency-Key: a lookup, a check and a transaction, interleaved with other
    submissions of the same key and with everything else. Models `create_job` of src/autoswe/api/jobs.py. */
module Submissions {
  import opened Options
  import opened Ledger
  import opened Runs

  /** Where one call of the endpoint is. `Lost` is DuplicateSubmissionError: it reads again. */
  datatype Phase = Started | Absent | Lost | Returned(id: JobId, created: bool) | Mismatch | Throttled | OutOfBudget

  datatype Call = Call(hash: string, metered: bool, phase: Phase)

  /** All calls of one owner with one key, beside the rest of the system. */
  datatype State = State(system: System, calls: map<nat, Call>)

  datatype Move =
    | Other(step: Step)
    | Arrive(call: nat, hash: string, metered: bool)
    | Lookup(call: nat, found: Option<JobId>, throttled: bool)
    | Insert(call: nat, id: JobId, period: int, createdAt: int)
    | Reread(call: nat, winner: JobId)

  predicate HasKey(t: Tables, id: JobId, owner: string, key: string) {
    id in t.jobs && t.jobs[id].owner == owner && t.jobs[id].key == Some(key)
  }

  /** Nobody else submits with this owner's key, and reads return what is there. */
  predicate CanMove(s: State, m: Move, owner: string, key: string) {
    match m
    case Other(step) => Possible(s.system, step) && !(step.Submit? && step.owner == owner && step.key == Some(key))
    case Arrive(c, _, _) => c !in s.calls
    case Lookup(c, found, _) =>
      && c in s.calls && s.calls[c].phase.Started?
      && (found.Some? ==> HasKey(s.system.tables, found.value, owner, key))
      && (found.None? ==> !KeyTaken(s.system.tables, owner, Some(key)))
    case Insert(c, id, _, _) => c in s.calls && s.calls[c].phase.Absent? && id !in s.system.tables.jobs
    case Reread(c, winner) => c in s.calls && s.calls[c].phase.Lost? && HasKey(s.system.tables, winner, owner, key)
  }

  function Replay(t: Tables, call: Call, id: JobId): Phase
    requires id in t.jobs
  {
    if t.jobs[id].hash == call.hash then Returned(id, false) else Mismatch
  }

  function SetPhase(s: State, c: nat, phase: Phase): State
    requires c in s.calls
  {
    s.(calls := s.calls[c := s.calls[c].(phase := phase)])
  }

  function Moved(p: Policy, s: State, m: Move, owner: string, key: string): State
    requires CanMove(s, m, owner, key)
  {
    match m
    case Other(step) => s.(system := Next(p, s.system, step))
    case Arrive(c, hash, metered) => s.(calls := s.calls[c := Call(hash, metered, Started)])
    case Lookup(c, found, throttled) =>
      if found.Some? then SetPhase(s, c, Replay(s.system.tables, s.calls[c], found.value))
      else SetPhase(s, c, if throttled then Throttled else Absent)
    case Insert(c, id, period, createdAt) =>
      var call := s.calls[c];
      var r := ReservationOf(p, owner, call.metered, period);
      var s' := s.(system := Next(p, s.system,
        Submit(id, owner, call.metered, Some(key), call.hash, period, createdAt)));
      SetPhase(s', c, match CreationOf(s.system.tables, owner, Some(key), r)
                      case Created => Returned(id, true)
                      case Duplicate => Lost
                      case Refused => OutOfBudget)
    case Reread(c, winner) => SetPhase(s, c, Replay(s.system.tables, s.calls[c], winner))
  }

  // ------------------------------------------------------------------ what every state satisfies

  ghost predicate OneJob(t: Tables, owner: string, key: string) {
    forall a, b :: HasKey(t, a, owner, key) && HasKey(t, b, owner, key) ==> a == b
  }

  ghost predicate CallOk(t: Tables, call: Call, owner: string, key: string) {
    match call.phase
    case Returned(id, _) => HasKey(t, id, owner, key) && t.jobs[id].hash == call.hash
    case Lost => exists id :: HasKey(t, id, owner, key)
    case Mismatch => exists id :: HasKey(t, id, owner, key) && t.jobs[id].hash != call.hash
    case _ => true
  }

  ghost predicate Inv(s: State, owner: string, key: string) {
    && OneJob(s.system.tables, owner, key)
    && (forall c :: c in s.calls ==> CallOk(s.system.tables, s.calls[c], owner, key))
    && (forall c, d :: c in s.calls && d in s.calls && CreatedIt(s.calls[c]) && CreatedIt(s.calls[d]) ==> c == d)
    && ((forall id :: !HasKey(s.system.tables, id, owner, key)) ==> forall c :: c in s.calls ==> !CreatedIt(s.calls[c]))
  }

  predicate CreatedIt(call: Call) {
    call.phase.Returned? && call.phase.created
  }

  /** Rows are never removed, and owner, key and hash never change. */
  ghost predicate SameSubmissions(t: Tables, t': Tables) {
    forall id :: id in t.jobs ==>
      id in t'.jobs && t'.jobs[id].owner == t.jobs[id].owner &&
        t'.jobs[id].key == t.jobs[id].key && t'.jobs[id].hash == t.jobs[id].hash
  }

  lemma {:induction false} ReapKeepsSubmissions(t: Tables, stale: seq<JobId>)
    ensures SameSubmissions(t, AfterReap(t, stale)) && AfterReap(t, stale).jobs.Keys == t.jobs.Keys
  {
    if stale != [] { ReapKeepsSubmissions(t, stale[..|stale| - 1]); }
  }

  lemma CallsKeepSubmissions(p: Policy, s: System, step: Step)
    requires Possible(s, step) && (step.BeforeCall? || step.AfterCall?)
    ensures SameSubmissions(s.tables, Next(p, s, step).tables)
  {
  }

  lemma ReleaseKeepsSubmissions(t: Tables, id: JobId, status: Status)
    requires id in t.jobs
    ensures SameSubmissions(t, Released(SetJob(t, id, t.jobs[id].(status := status)), id))
  {
  }

  lemma EndsKeepSubmissions(p: Policy, s: System, step: Step)
    requires Possible(s, step) && (step.Cancel? || step.Finish?)
    ensures SameSubmissions(s.tables, Next(p, s, step).tables)
  {
    if step.Finish? && Is(s.tables, step.id, Running) { ReleaseKeepsSubmissions(s.tables, step.id, step.status); }
    if step.Cancel? && Is(s.tables, step.id, Queued) { ReleaseKeepsSubmissions(s.tables, step.id, Cancelled); }
  }

  lemma StepKeepsSubmissions(p: Policy, s: System, step: Step)
    requires Possible(s, step)
    ensures SameSubmissions(s.tables, Next(p, s, step).tables)
  {
    if step.BeforeCall? || step.AfterCall? {
      CallsKeepSubmissions(p, s, step);
    } else if step.Cancel? || step.Finish? {
      EndsKeepSubmissions(p, s, step);
    } else if step.Reap? {
      ReapKeepsSubmissions(s.tables, step.stale);
    }
  }

  lemma OnlySubmitsInsert(p: Policy, s: System, step: Step)
    requires Possible(s, step) && !step.Submit?
    ensures Next(p, s, step).tables.jobs.Keys == s.tables.jobs.Keys
  {
    if step.Reap? { ReapKeepsSubmissions(s.tables, step.stale); }
  }

  lemma SubmitInsertsItsJob(p: Policy, s: System, step: Step, id: JobId)
    requires Possible(s, step) && step.Submit?
    requires id in Next(p, s, step).tables.jobs && id !in s.tables.jobs
    ensures var job := Next(p, s, step).tables.jobs[id];
      step.id == id && job.owner == step.owner && job.key == step.key && job.hash == step.hash
  {
  }

  lemma OtherKeepsInv(p: Policy, s: State, step: Step, owner: string, key: string)
    requires Inv(s, owner, key) && CanMove(s, Other(step), owner, key)
    ensures Inv(Moved(p, s, Other(step), owner, key), owner, key)
  {
    StepKeepsSubmissions(p, s.system, step);
    var t, t' := s.system.tables, Next(p, s.system, step).tables;
    forall id: nat
      ensures HasKey(t', id, owner, key) <==> HasKey(t, id, owner, key)
    {
      if !step.Submit? { OnlySubmitsInsert(p, s.system, step); }
      else if id in t'.jobs && id !in t.jobs { SubmitInsertsItsJob(p, s.system, step, id); }
    }
    forall c | c in s.calls
      ensures CallOk(t', s.calls[c], owner, key)
    {
      assert CallOk(t, s.calls[c], owner, key);
    }
  }

  lemma InsertKeepsInv(p: Policy, s: State, m: Move, owner: string, key: string)
    requires Inv(s, owner, key) && CanMove(s, m, owner, key) && m.Insert?
    ensures Inv(Moved(p, s, m, owner, key), owner, key)
  {
    var call := s.calls[m.call];
    var step := Submit(m.id, owner, call.metered, Some(key), call.hash, m.period, m.createdAt);
    var r := ReservationOf(p, owner, call.metered, m.period);
    StepKeepsSubmissions(p, s.system, step);
    var t, s' := s.system.tables, Moved(p, s, m, owner, key);
    var t' := s'.system.tables;
    if CreationOf(t, owner, Some(key), r).Created? {
      assert forall id: nat :: !HasKey(t, id, owner, key);
      assert forall id: nat :: HasKey(t', id, owner, key) <==> id == m.id;
    } else if CreationOf(t, owner, Some(key), r).Duplicate? {
      var winner: nat :| winner in t.jobs && t.jobs[winner].owner == owner && t.jobs[winner].key == Some(key);
      assert HasKey(t', winner, owner, key);
    }
    forall c | c in s.calls && c != m.call
      ensures CallOk(t', s.calls[c], owner, key)
    {
      assert CallOk(t, s.calls[c], owner, key);
    }
  }

  /** At most one job is inserted for the key, at most one call says it did that, and every call
      that returns a job returns that one; a call that lost the race finds the winner. */
  lemma MoveKeepsInv(p: Policy, s: State, m: Move, owner: string, key: string)
    requires Inv(s, owner, key) && CanMove(s, m, owner, key)
    ensures Inv(Moved(p, s, m, owner, key), owner, key)
  {
    match m
    case Other(step) => OtherKeepsInv(p, s, step, owner, key);
    case Insert(_, _, _, _) => InsertKeepsInv(p, s, m, owner, key);
    case _ =>
      var s' := Moved(p, s, m, owner, key);
      forall c | c in s'.calls
        ensures CallOk(s'.system.tables, s'.calls[c], owner, key)
      {
        if c != m.call { assert CallOk(s.system.tables, s.calls[c], owner, key); }
      }
  }

  /** A call that finds a job under its key, at first or after losing the race, is handed that job exactly if
      it submits the same request, and is told of the mismatch exactly if it submits another. */
  lemma FoundJobIsHandedBack(p: Policy, s: State, m: Move, id: JobId, owner: string, key: string)
    requires CanMove(s, m, owner, key)
    requires (m.Lookup? && m.found == Some(id)) || (m.Reread? && m.winner == id)
    ensures var before, after := s.calls[m.call], Moved(p, s, m, owner, key).calls[m.call];
      && (after.phase == Returned(id, false) <==> before.hash == s.system.tables.jobs[id].hash)
      && (after.phase == Mismatch <==> before.hash != s.system.tables.jobs[id].hash)
  {
  }

  /** A call that finds nothing may insert any new job, exactly if its owner has not too many. */
  lemma NothingFoundGoesOn(p: Policy, s: State, m: Move, id: JobId, period: int, createdAt: int, owner: string,
                           key: string)
    requires CanMove(s, m, owner, key) && m.Lookup? && m.found.None? && id !in s.system.tables.jobs
    ensures var s' := Moved(p, s, m, owner, key);
      && s'.system == s.system && s'.calls[m.call].hash == s.calls[m.call].hash
      && (s'.calls[m.call].phase == Throttled <==> m.throttled)
      && (CanMove(s', Insert(m.call, id, period, createdAt), owner, key) <==> !m.throttled)
  {
  }

  /** A call starts with what it was sent, and no other call changes; nor does what a call was sent. */
  lemma OnlyItsCall(p: Policy, s: State, m: Move, other: nat, owner: string, key: string)
    requires CanMove(s, m, owner, key)
    ensures var calls := Moved(p, s, m, owner, key).calls;
      && (m.Arrive? ==> m.call in calls && calls[m.call] == Call(m.hash, m.metered, Started))
      && (!m.Other? ==> m.call in calls)
      && (!m.Other? && !m.Arrive? ==>
            calls[m.call].hash == s.calls[m.call].hash && calls[m.call].metered == s.calls[m.call].metered)
      && (m.Other? || other != m.call ==>
            (other in calls <==> other in s.calls) && (other in calls ==> calls[other] == s.calls[other]))
  {
  }

  /** Everybody else may do what the system allows, but submit with this owner's key. */
  lemma OthersAreFree(s: State, step: Step, owner: string, key: string)
    requires Possible(s.system, step) && (step.Submit? ==> step.owner != owner || step.key != Some(key))
    ensures CanMove(s, Other(step), owner, key)
  {
  }

  /** Beside the calls the system makes its steps as in any run, and an insertion is a step that submits what
      its call asked for; no other move of a call changes the system. */
  lemma MovesAreSteps(p: Policy, s: State, m: Move, owner: string, key: string)
    requires CanMove(s, m, owner, key)
    ensures var s' := Moved(p, s, m, owner, key).system;
      match m
      case Other(step) => s' == Next(p, s.system, step)
      case Insert(c, id, period, createdAt) =>
        s' == Next(p, s.system, Submit(id, owner, s.calls[c].metered, Some(key), s.calls[c].hash, period, createdAt))
      case _ => s' == s.system
  {
  }

  /** Its insertion is reported as what it was. */
  lemma InsertionIsReported(p: Policy, s: State, m: Move, owner: string, key: string)
    requires CanMove(s, m, owner, key) && m.Insert?
    ensures var s' := Moved(p, s, m, owner, key); var phase := s'.calls[m.call].phase;
      var t, t' := s.system.tables, s'.system.tables;
      && (phase == Returned(m.id, true) <==> HasKey(t', m.id, owner, key))
      && (phase == Returned(m.id, true) ==> t'.jobs[m.id].hash == s.calls[m.call].hash)
      && (phase == Lost ==> KeyTaken(t, owner, Some(key)))
      && (phase == OutOfBudget <==>
           var r := ReservationOf(p, owner, s.calls[m.call].metered, m.period);
           r.Some? && r.value.limit.Some? &&
           !Fits(Ensure(t, owner, m.period), owner, m.period, r.value.amount, r.value.limit.value))
      && (phase == Lost || phase == OutOfBudget || phase == Returned(m.id, true))
  {
  }

  /** The call is over and was neither throttled nor out of budget. */
  predicate Answered(call: Call) {
    call.phase !in {Started, Absent, Lost, Throttled, OutOfBudget}
  }

  /** In every history, once the key has a job each answered call was handed that job if it submitted the
      same request, and told of a mismatch if not. */
  lemma EveryRetryGetsTheJob(p: Policy, moves: seq<Move>, states: seq<State>, owner: string, key: string, n: nat,
                             c: nat)
    requires IsHistory(p, moves, states, owner, key) && n <= |moves|
    requires c in states[n].calls && Answered(states[n].calls[c])
    ensures var t, call := states[n].system.tables, states[n].calls[c];
      exists id :: HasKey(t, id, owner, key)
        && (forall other :: HasKey(t, other, owner, key) ==> other == id)
        && (t.jobs[id].hash == call.hash <==> call.phase.Returned? && call.phase.id == id)
  {
    EveryInterleaving(p, moves, states, owner, key, n);
    var t, call := states[n].system.tables, states[n].calls[c];
    assert CallOk(t, call, owner, key);
    var id: nat :| HasKey(t, id, owner, key);
    assert forall other :: HasKey(t, other, owner, key) ==> other == id;
  }

  lemma ReturnedJobsAgree(s: State, owner: string, key: string, c: nat, d: nat)
    requires Inv(s, owner, key) && c in s.calls && d in s.calls
    requires s.calls[c].phase.Returned? && s.calls[d].phase.Returned?
    ensures s.calls[c].phase.id == s.calls[d].phase.id && s.calls[c].hash == s.calls[d].hash
  {
    assert CallOk(s.system.tables, s.calls[c], owner, key) && CallOk(s.system.tables, s.calls[d], owner, key);
  }

  /** Only the insertion that created the job touches jobs, ledger or events: a losing flush takes
      its reservation back. */
  lemma LosingInsertRollsBack(p: Policy, s: State, m: Move, owner: string, key: string)
    requires CanMove(s, m, owner, key) && !m.Other?
    ensures var s' := Moved(p, s, m, owner, key);
      s'.system.tables == s.system.tables || (m.Insert? && CreatedIt(s'.calls[m.call]))
  {
  }

  /** The endpoint's own assertion: after losing, the second lookup finds a job. */
  lemma LoserFindsWinner(s: State, owner: string, key: string, c: nat) returns (winner: JobId)
    requires Inv(s, owner, key) && c in s.calls && s.calls[c].phase.Lost?
    ensures CanMove(s, Reread(c, winner), owner, key)
  {
    assert CallOk(s.system.tables, s.calls[c], owner, key);
    winner :| HasKey(s.system.tables, winner, owner, key);
  }

  // ------------------------------------------------------------------ every interleaving

  ghost predicate IsHistory(p: Policy, moves: seq<Move>, states: seq<State>, owner: string, key: string) {
    && |states| == |moves| + 1
    && states[0].calls == map[] && OneJob(states[0].system.tables, owner, key)
    && forall i :: 0 <= i < |moves| ==>
        CanMove(states[i], moves[i], owner, key) && states[i + 1] == Moved(p, states[i], moves[i], owner, key)
  }

  ghost function Insertions(states: seq<State>, moves: seq<Move>, n: nat): nat
    requires n <= |moves| < |states|
  {
    if n == 0 then 0
    else
      var changed := !moves[n - 1].Other? && states[n].system.tables != states[n - 1].system.tables;
      Insertions(states, moves, n - 1) + if changed then 1 else 0
  }

  lemma {:induction false} EveryInterleaving(p: Policy, moves: seq<Move>, states: seq<State>, owner: string,
                                             key: string, n: nat)
    requires IsHistory(p, moves, states, owner, key) && n <= |moves|
    ensures Inv(states[n], owner, key)
    ensures Insertions(states, moves, n) <= 1
    ensures Insertions(states, moves, n) == 1 ==> exists c :: c in states[n].calls && CreatedIt(states[n].calls[c])
  {
    if n > 0 {
      EveryInterleaving(p, moves, states, owner, key, n - 1);
      var s, m := states[n - 1], moves[n - 1];
      MoveKeepsInv(p, s, m, owner, key);
      if !m.Other? { LosingInsertRollsBack(p, s, m, owner, key); }
      if Insertions(states, moves, n - 1) == 1 {
        var c: nat :| c in s.calls && CreatedIt(s.calls[c]);
        assert c in states[n].calls && CreatedIt(states[n].calls[c]);
      } else if Insertions(states, moves, n) == 1 {
        assert CreatedIt(states[n].calls[m.call]);
      }
    }
  }
}
