/** Bounded loops as values: a loop that takes turns from a state until it stops, says that a turn was its
    last, or has used up the turns it was given. */
module Turns {
  datatype Turn<S, R> = Stop | Go(round: R, after: S, more: bool)

  function Rounds<S(!new), R>(next: S -> Turn<S, R>, s: S, left: nat): seq<R>
    decreases left
  {
    if left == 0 then []
    else
      match next(s)
      case Stop => []
      case Go(r, s', more) => [r] + if more then Rounds(next, s', left - 1) else []
  }

  /** The states between the rounds, the first and the last included. */
  function States<S(!new), R>(next: S -> Turn<S, R>, s: S, left: nat): (states: seq<S>)
    ensures |states| >= 1 && states[0] == s
    decreases left
  {
    if left == 0 then [s]
    else
      match next(s)
      case Stop => [s]
      case Go(_, s', more) => [s] + if more then States(next, s', left - 1) else [s']
  }

  function EndState<S(!new), R>(next: S -> Turn<S, R>, s: S, left: nat): S {
    States(next, s, left)[|States(next, s, left)| - 1]
  }

  /** Each round is the turn of the state before it and leads to the state after it, and only the last may have
      said that there are no more. */
  lemma {:induction false} RoundsAreTurns<S(!new), R>(next: S -> Turn<S, R>, s: S, left: nat, k: nat)
    requires k < |Rounds(next, s, left)|
    ensures var rounds, states := Rounds(next, s, left), States(next, s, left);
      && |states| == |rounds| + 1 && |rounds| <= left
      && next(states[k]).Go? && next(states[k]).round == rounds[k] && next(states[k]).after == states[k + 1]
      && (k < |rounds| - 1 ==> next(states[k]).more)
    decreases left
  {
    var turn := next(s);
    if turn.more {
      AfterFirst(next, s, left);
      StatesCount(next, turn.after, left - 1);
      if k > 0 { RoundsAreTurns(next, turn.after, left - 1, k - 1); }
    } else {
      assert States(next, s, left) == [s] + [turn.after] && Rounds(next, s, left) == [turn.round] + [];
    }
  }

  lemma AfterFirst<S(!new), R>(next: S -> Turn<S, R>, s: S, left: nat)
    requires left > 0 && next(s).Go? && next(s).more
    ensures Rounds(next, s, left) == [next(s).round] + Rounds(next, next(s).after, left - 1)
    ensures States(next, s, left) == [s] + States(next, next(s).after, left - 1)
  {
  }

  lemma {:induction false} StatesCount<S(!new), R>(next: S -> Turn<S, R>, s: S, left: nat)
    ensures |States(next, s, left)| == |Rounds(next, s, left)| + 1 && |Rounds(next, s, left)| <= left
    decreases left
  {
    if left > 0 && next(s).Go? && next(s).more { StatesCount(next, next(s).after, left - 1); }
  }

  /** Why it ended. */
  lemma {:induction false} RoundsEnd<S(!new), R>(next: S -> Turn<S, R>, s: S, left: nat)
    ensures var rounds, states := Rounds(next, s, left), States(next, s, left);
      && |states| == |rounds| + 1
      && (|rounds| == left || next(states[|rounds|]).Stop?
          || (rounds != [] && next(states[|rounds| - 1]).Go? && !next(states[|rounds| - 1]).more))
    decreases left
  {
    if left > 0 && next(s).Go? && next(s).more {
      RoundsEnd(next, next(s).after, left - 1);
      var rest := Rounds(next, next(s).after, left - 1);
      assert Rounds(next, s, left) == [next(s).round] + rest;
      assert States(next, s, left) == [s] + States(next, next(s).after, left - 1);
      if rest == [] && left - 1 == 0 { assert |Rounds(next, s, left)| == left; }
    }
  }

  /** What a loop keeps: it has come from `start` to `now` through these rounds, and has `left` turns to go. */
  ghost predicate OnCourse<S(!new), R>(next: S -> Turn<S, R>, start: S, all: nat, rounds: seq<R>, now: S, left: nat)
    decreases |rounds|
  {
    if rounds == [] then now == start && left == all
    else
      exists before ::
        && OnCourse(next, start, all, rounds[..|rounds| - 1], before, left + 1)
        && next(before) == Go(rounds[|rounds| - 1], now, true)
  }

  /** It has come to its end: no turns are left or there is none to take, or the last one said so. */
  ghost predicate Finished<S(!new), R>(next: S -> Turn<S, R>, start: S, all: nat, rounds: seq<R>, now: S) {
    || (exists left: nat :: OnCourse(next, start, all, rounds, now, left) && (left == 0 || next(now).Stop?))
    || (rounds != [] && EndedWith(next, start, all, rounds[..|rounds| - 1], rounds[|rounds| - 1], now))
  }

  ghost predicate EndedWith<S(!new), R>(next: S -> Turn<S, R>, start: S, all: nat, rounds: seq<R>, r: R, now: S) {
    exists before, left: nat ::
      OnCourse(next, start, all, rounds, before, left) && left > 0 && next(before) == Go(r, now, false)
  }

  /** The rounds so far and those still to come are all of them. */
  lemma {:induction false} WholeCourse<S(!new), R>(next: S -> Turn<S, R>, start: S, all: nat, rounds: seq<R>, now: S,
                                             left: nat)
    requires OnCourse(next, start, all, rounds, now, left)
    ensures rounds + Rounds(next, now, left) == Rounds(next, start, all)
    ensures EndState(next, now, left) == EndState(next, start, all)
    decreases |rounds|
  {
    if rounds == [] {
      assert rounds + Rounds(next, now, left) == Rounds(next, now, left);
    } else {
      var init, r := rounds[..|rounds| - 1], rounds[|rounds| - 1];
      var before :| OnCourse(next, start, all, init, before, left + 1) && next(before) == Go(r, now, true);
      WholeCourse(next, start, all, init, before, left + 1);
      var rest := Rounds(next, now, left);
      assert Rounds(next, before, left + 1) == [r] + rest;
      Regrouped(init, r, rest);
      assert rounds == init + [r];
    }
  }

  lemma Regrouped<R>(a: seq<R>, r: R, b: seq<R>)
    ensures a + ([r] + b) == (a + [r]) + b
  {
  }

  lemma TookTurn<S(!new), R>(next: S -> Turn<S, R>, start: S, all: nat, rounds: seq<R>, now: S, left: nat, r: R,
                             after: S)
    requires OnCourse(next, start, all, rounds, now, left) && left > 0 && next(now) == Go(r, after, true)
    ensures OnCourse(next, start, all, rounds + [r], after, left - 1)
  {
    assert (rounds + [r])[..|rounds|] == rounds;
  }

  lemma TookLastTurn<S(!new), R>(next: S -> Turn<S, R>, start: S, all: nat, rounds: seq<R>, now: S, left: nat, r: R,
                                 after: S)
    requires OnCourse(next, start, all, rounds, now, left) && left > 0 && next(now) == Go(r, after, false)
    ensures Finished(next, start, all, rounds + [r], after)
  {
    assert (rounds + [r])[..|rounds|] == rounds;
  }

  /** Then the rounds it took are all there are, and it is in the last state. */
  lemma FinishedIsAll<S(!new), R>(next: S -> Turn<S, R>, start: S, all: nat, rounds: seq<R>, now: S)
    requires Finished(next, start, all, rounds, now)
    ensures rounds == Rounds(next, start, all) && now == EndState(next, start, all)
  {
    if left: nat :| OnCourse(next, start, all, rounds, now, left) && (left == 0 || next(now).Stop?) {
      WholeCourse(next, start, all, rounds, now, left);
      assert rounds + [] == rounds;
    } else {
      var init, r := rounds[..|rounds| - 1], rounds[|rounds| - 1];
      var before, left: nat :| OnCourse(next, start, all, init, before, left) && left > 0
        && next(before) == Go(r, now, false);
      WholeCourse(next, start, all, init, before, left);
      assert rounds == init + [r];
    }
  }

  /** What every turn keeps holds in the end, of the rounds there were. */
  lemma Kept<S(!new), R(!new)>(next: S -> Turn<S, R>, s: S, left: nat, kept: (S, seq<R>) -> bool)
    requires kept(s, [])
    requires forall now, rounds, r, after, more :: kept(now, rounds) && next(now) == Go(r, after, more) ==>
      kept(after, rounds + [r])
    ensures kept(EndState(next, s, left), Rounds(next, s, left))
  {
    KeptFrom(next, [], s, left, kept);
    assert [] + Rounds(next, s, left) == Rounds(next, s, left);
  }

  lemma {:induction false} KeptFrom<S(!new), R(!new)>(next: S -> Turn<S, R>, before: seq<R>, s: S, left: nat,
                                                      kept: (S, seq<R>) -> bool)
    requires kept(s, before)
    requires forall now, rounds, r, after, more :: kept(now, rounds) && next(now) == Go(r, after, more) ==>
      kept(after, rounds + [r])
    ensures kept(EndState(next, s, left), before + Rounds(next, s, left))
    decreases left
  {
    if left == 0 || next(s).Stop? {
      assert before + Rounds(next, s, left) == before;
    } else {
      var turn := next(s);
      assert next(s) == Go(turn.round, turn.after, turn.more);
      assert kept(turn.after, before + [turn.round]);
      if turn.more {
        KeptFrom(next, before + [turn.round], turn.after, left - 1, kept);
        Regrouped(before, turn.round, Rounds(next, turn.after, left - 1));
      } else {
        assert before + Rounds(next, s, left) == before + [turn.round];
      }
    }
  }
}
