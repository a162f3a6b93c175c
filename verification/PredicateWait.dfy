/** The waits of include/ConditionVariable.h on a `condition_variable`: deadlines, and loops around a predicate. */
module PredicateWait {
  import opened Options
  import opened CvProtocol
  import opened CvInvariant
  import opened CvCalls
  import opened Ticks
  import CV = ConditionVariable

  /** What the world does in one round of a loop around a wait. */
  datatype Round = Round(
    others: seq<Action>,          // steps of other threads before the predicate is called
    holds: bool,                  // what the predicate answers
    now: int,                     // the clock read after it
    expire: bool,                 // for the wait: whether the kernel finds the time up,
    sched: nat -> seq<Action>)    // and the steps of other threads between its statements

  /** How a loop around a wait ends. */
  datatype Result =
    | Returned(value: bool)
    | Interrupted(last: CV.WaitResult)   // the last wait does not finish
    | Open                               // the rounds are used up

  /** Thread `t` is between two calls and holds the mutex. */
  ghost predicate Owns(cv: CV.ConditionVariable, t: Tid)
    reads cv
  {
    cv.Live(t) && cv.pcs[t].Idle? && cv.user == Some(t)
  }

  /** Thread `t` is in a wait that cannot go on, or the run has stopped. */
  ghost predicate Hangs(cv: CV.ConditionVariable, t: Tid, w: CV.WaitResult)
    reads cv
  {
    match w
    case Stopped => !cv.halt.Running?
    case StillWaiting => cv.Live(t) && Ticket(cv.pcs[t]).Some? && !CanRun(cv.View(), t)
    case _ => false
  }

  // ---- The moves of a wait, and of a loop ----------------------------------------------

  /** The moves of a whole wait: seven turns, or ten if it times out. */
  function WaitMoves(t: Tid, limit: Limit, round: Round, timeout: bool): seq<Move> {
    Script(t, CallWait(t, limit), round.sched, timeout, if timeout then 10 else 7)
  }

  /** The moves of a wait up to some turn, whose own step it may not make. */
  ghost predicate PartOfWait(t: Tid, limit: Limit, round: Round, moves: seq<Move>) {
    exists expired, n: nat ::
      var script := Script(t, CallWait(t, limit), round.sched, expired, n);
      moves == script || moves == script + [Theirs(round.sched(n))]
  }

  /** The moves of a round: a turn of the others, and the wait unless there is none. */
  function RoundMoves(t: Tid, ask: Option<Limit>, round: Round, timeout: bool): seq<Move> {
    [Theirs(round.others)] + if ask.None? then [] else WaitMoves(t, ask.value, round, timeout)
  }

  /** The others have their turn before the predicate and before every step of the wait. */
  lemma RoundTurns(t: Tid, ask: Option<Limit>, round: Round, timeout: bool, i: nat)
    requires i < if timeout then 10 else 7
    ensures var moves := RoundMoves(t, ask, round, timeout);
      && moves != [] && moves[0] == Theirs(round.others)
      && (ask.None? ==> |moves| == 1)
      && (ask.Some? ==>
            && |moves| == (if timeout then 22 else 16) && moves[1] == Mine(CallWait(t, ask.value))
            && moves[2 * i + 2] == Theirs(round.sched(i))
            && moves[2 * i + 3] == Mine(if timeout && i == 4 then Expire(t) else Run(t)))
  {
    if ask.Some? {
      ScriptTurns(t, CallWait(t, ask.value), round.sched, timeout, if timeout then 10 else 7, i);
    }
  }

  /** The moves of the finished rounds of a loop whose rounds ask for the waits that `ask` says. */
  function LoopMoves(t: Tid, ask: Round -> Option<Limit>, rounds: seq<Round>, timeouts: seq<bool>): seq<Move>
    requires |timeouts| <= |rounds|
  {
    if timeouts == [] then []
    else
      var n := |timeouts| - 1;
      LoopMoves(t, ask, rounds, timeouts[..n]) + RoundMoves(t, ask(rounds[n]), rounds[n], timeouts[n])
  }

  lemma LoopGoesOn(t: Tid, ask: Round -> Option<Limit>, rounds: seq<Round>, timeouts: seq<bool>, timeout: bool)
    requires |timeouts| < |rounds|
    ensures LoopMoves(t, ask, rounds, timeouts + [timeout]) ==
      LoopMoves(t, ask, rounds, timeouts) + RoundMoves(t, ask(rounds[|timeouts|]), rounds[|timeouts|], timeout)
  {
    assert (timeouts + [timeout])[..|timeouts|] == timeouts;
  }

  /** What a wait that is asked for has done. */
  ghost predicate Waited(t: Tid, ask: Option<Limit>, round: Round, w: CV.WaitResult, moves: seq<Move>) {
    match ask
    case None => w == CV.Finished(true) && moves == []
    case Some(limit) =>
      if w.Finished? then moves == WaitMoves(t, limit, round, w.timeout) else PartOfWait(t, limit, round, moves)
  }

  // ---- Single waits --------------------------------------------------------------------

  /** The other threads run while `t` holds the mutex outside of any call. */
  method Interfere(cv: CV.ConditionVariable, t: Tid, acts: seq<Action>, ghost from: State, ghost moves: seq<Move>)
    requires Owns(cv, t) && Went(t, from, moves, cv.View())
    modifies cv
    ensures Went(t, from, moves + [Theirs(acts)], cv.View()) && StopsFor(t, cv.View())
    ensures cv.halt.Running? ==> Owns(cv, t)
  {
    WentTheirs(t, from, moves, cv.View(), acts);
    OthersStopFor(t, cv.View(), acts);
    cv.Interfere(t, acts);
  }

  /** One call of `wait_for_usec`. */
  method Await(cv: CV.ConditionVariable, t: Tid, limit: Limit, round: Round) returns (w: CV.WaitResult, ghost moves: seq<Move>)
    requires Owns(cv, t)
    modifies cv
    ensures Went(t, old(cv.View()), moves, cv.View()) && StopsFor(t, cv.View())
    ensures Waited(t, Some(limit), round, w, moves)
    ensures w.Finished? ==> Owns(cv, t) && !Negative(limit) && (w.timeout ==> round.expire && limit.Usec?)
    ensures w.Thrown? ==> cv.Live(t) && cv.pcs[t].Idle? && cv.user != Some(t) && Negative(limit)
    ensures w.StillWaiting? || w.Stopped? ==> Hangs(cv, t, w)
  {
    ghost var s := cv.View();
    var k;
    ghost var n, expired, parked;
    w, k, n, expired, parked := cv.WaitForUsec(t, limit, round.expire, round.sched);
    ghost var p := Plan(t, s, CallWait(t, limit), round.sched, expired);
    moves := if After(p, n, cv.View()) then Moves(p, n) else Moves(p, n) + [Theirs(round.sched(n))];
    assert moves == Script(t, CallWait(t, limit), round.sched, expired, n) ||
           moves == Script(t, CallWait(t, limit), round.sched, expired, n) + [Theirs(round.sched(n))];
  }

  /** `wait_for` without a predicate: the only form that can pass on a negative duration. */
  method WaitFor(cv: CV.ConditionVariable, t: Tid, rel: int, den: nat, round: Round)
    returns (w: CV.WaitResult, ghost moves: seq<Move>)
    requires Owns(cv, t) && den > 0
    modifies cv
    ensures Went(t, old(cv.View()), moves, cv.View()) && StopsFor(t, cv.View())
    ensures Waited(t, Some(Usec(ToUsec(rel, den))), round, w, moves)
    ensures w.Finished? ==> Owns(cv, t) && rel * MICRO + den > 0 && (w.timeout ==> round.expire)
    ensures w.Thrown? ==> cv.Live(t) && cv.pcs[t].Idle? && cv.user != Some(t) && rel * MICRO + den <= 0
    ensures w.StillWaiting? || w.Stopped? ==> Hangs(cv, t, w)
  {
    CastSign(rel, den);
    w, moves := Await(cv, t, Usec(ToUsec(rel, den)), round);
  }

  /**
   The wait that `wait_until` asks for in a round: none if the deadline has passed, and else one for the
   time left in whole microseconds, which is never negative.
   */
  function Asked(deadline: int, den: nat, round: Round): (ask: Option<Limit>)
    requires den > 0
    ensures ask.None? <==> round.now > deadline
    ensures ask.Some? ==> ask.value.Usec? && ask.value.n >= 0
    ensures ask.Some? ==> var usec := ask.value.n; usec * den <= (deadline - round.now) * MICRO < (usec + 1) * den
  {
    if round.now > deadline then None
    else
      CastRounds(deadline - round.now, den);
      Some(Usec(ToUsec(deadline - round.now, den)))
  }

  /** `wait_until` without a predicate: a deadline in the past neither waits nor lets the mutex go. */
  method WaitUntil(cv: CV.ConditionVariable, t: Tid, deadline: int, den: nat, round: Round)
    returns (w: CV.WaitResult, ghost moves: seq<Move>)
    requires Owns(cv, t) && den > 0
    modifies cv
    ensures round.now > deadline ==> w == CV.Finished(true) && cv.View() == old(cv.View())
    ensures Went(t, old(cv.View()), moves, cv.View()) && StopsFor(t, cv.View())
    ensures Waited(t, Asked(deadline, den, round), round, w, moves)
    ensures w.Finished? ==> Owns(cv, t) && (w.timeout ==> round.now > deadline || round.expire)
    ensures !w.Finished? ==> Hangs(cv, t, w)
  {
    var rel := deadline - round.now;
    if rel < 0 {
      return CV.Finished(true), [];
    }
    CastSign(rel, den);
    w, moves := WaitFor(cv, t, rel, den, round);
  }

  // ---- Without a deadline --------------------------------------------------------------

  /** `wait` as coded passes microseconds::max(); as intended it is never timed. */
  predicate Forever(limit: Limit) {
    limit == Untimed || limit == Usec(MAX_USEC)
  }

  function Always(limit: Limit): Round -> Option<Limit> {
    (_: Round) => Some(limit)
  }

  /** The predicate is false in the first `n` rounds. */
  ghost predicate NoneHolds(rounds: seq<Round>, n: nat)
    requires n <= |rounds|
  {
    forall i :: 0 <= i < n ==> !rounds[i].holds
  }

  lemma NextRound(rounds: seq<Round>, n: nat)
    requires n < |rounds| && NoneHolds(rounds, n) && !rounds[n].holds
    ensures NoneHolds(rounds, n + 1)
  {}

  /** The moves of a round that does not finish: only the turn of the others, or part of the wait as well. */
  ghost predicate BrokenOff(t: Tid, ask: Option<Limit>, round: Round, w: CV.WaitResult, last: seq<Move>) {
    || (w.Stopped? && last == [Theirs(round.others)])
    || (!round.holds && ask.Some? && exists moves :: PartOfWait(t, ask.value, round, moves) && last == [Theirs(round.others)] + moves)
  }

  /** A round that comes to its wait. */
  lemma RoundWent(
      t: Tid, from: State, moves: seq<Move>, s: State, ask: Option<Limit>, round: Round, w: CV.WaitResult, waited: seq<Move>,
      s': State)
    requires Went(t, from, moves + [Theirs(round.others)], s) && Went(t, s, waited, s')
    requires !round.holds && Waited(t, ask, round, w, waited)
    ensures Went(t, from, moves + ([Theirs(round.others)] + waited), s')
    ensures if w.Finished? then [Theirs(round.others)] + waited == RoundMoves(t, ask, round, w.timeout)
            else BrokenOff(t, ask, round, w, [Theirs(round.others)] + waited)
  {
    WentOn(t, from, moves + [Theirs(round.others)], s, waited, s');
    assert moves + [Theirs(round.others)] + waited == moves + ([Theirs(round.others)] + waited);
  }

  /** How the last round of `wait(lock, pred)` ends, and its moves. */
  ghost predicate RoundEnds(cv: CV.ConditionVariable, t: Tid, r: Result, ask: Option<Limit>, round: Round, last: seq<Move>)
    reads cv
  {
    match r
    case Returned(value) => value && round.holds && last == [Theirs(round.others)] && Owns(cv, t)
    case Interrupted(w) => Hangs(cv, t, w) && BrokenOff(t, ask, round, w, last)
    case Open => false
  }

  /** One round of `wait(lock, pred)`: the predicate, and the wait unless it holds.  No result means another round. */
  method WaitRound(cv: CV.ConditionVariable, t: Tid, limit: Limit, round: Round, ghost from: State, ghost moves: seq<Move>)
    returns (r: Option<Result>, ghost timeout: bool, ghost last: seq<Move>)
    requires Owns(cv, t) && Went(t, from, moves, cv.View()) && Forever(limit)
    modifies cv
    ensures Went(t, from, moves + last, cv.View()) && StopsFor(t, cv.View())
    ensures r.None? ==> last == RoundMoves(t, Some(limit), round, timeout) && !round.holds && Owns(cv, t)
    ensures r.Some? ==> RoundEnds(cv, t, r.value, Some(limit), round, last)
  {
    Interfere(cv, t, round.others, from, moves);
    timeout, last := false, [Theirs(round.others)];
    if !cv.halt.Running? { return Some(Interrupted(CV.Stopped)), timeout, last; }
    if round.holds { return Some(Returned(true)), timeout, last; }
    ghost var s := cv.View();
    var w;
    ghost var waited;
    w, waited := Await(cv, t, limit, round);
    RoundWent(t, from, moves, s, Some(limit), round, w, waited, cv.View());
    last, timeout := last + waited, w == CV.Finished(true);
    r := if w.Finished? then None else Some(Interrupted(w));
  }

  /** `wait(lock, pred)`: it returns in the first round in which the predicate holds, with the mutex held. */
  method Wait(cv: CV.ConditionVariable, t: Tid, limit: Limit, rounds: seq<Round>)
    returns (r: Result, n: nat, ghost timeouts: seq<bool>, ghost last: seq<Move>)
    requires Owns(cv, t) && Forever(limit)
    modifies cv
    ensures n == |timeouts| <= |rounds| && NoneHolds(rounds, n)
    ensures Went(t, old(cv.View()), LoopMoves(t, Always(limit), rounds, timeouts) + last, cv.View())
    ensures StopsFor(t, cv.View())
    ensures r.Open? ==> n == |rounds| && last == [] && Owns(cv, t)
    ensures !r.Open? ==> n < |rounds|
    ensures !r.Open? ==> RoundEnds(cv, t, r, Some(limit), rounds[n], last)
  {
    n, timeouts, last := 0, [], [];
    ghost var from := cv.View();
    ghost var moves := [];
    var end: Option<Result> := None;
    while n < |rounds| && end.None?
      invariant n == |timeouts| <= |rounds| && NoneHolds(rounds, n)
      invariant moves == LoopMoves(t, Always(limit), rounds, timeouts)
      invariant Went(t, from, moves + last, cv.View()) && StopsFor(t, cv.View())
      invariant end.None? ==> last == [] && Owns(cv, t)
      invariant end.Some? ==> n < |rounds| && RoundEnds(cv, t, end.value, Some(limit), rounds[n], last)
      decreases |rounds| - n, end.None?
    {
      assert moves + [] == moves;
      ghost var timeout;
      end, timeout, last := WaitRound(cv, t, limit, rounds[n], from, moves);
      if end.None? {
        NextRound(rounds, n);
        LoopGoesOn(t, Always(limit), rounds, timeouts, timeout);
        n, timeouts, moves, last := n + 1, timeouts + [timeout], moves + last, [];
        assert moves + [] == moves;
      }
    }
    r := if end.Some? then end.value else Open;
  }

  // ---- With a deadline -----------------------------------------------------------------

  function Until(deadline: int, den: nat): Round -> Option<Limit>
    requires den > 0
  {
    (round: Round) => Asked(deadline, den, round)
  }

  /** How the last round of a timed loop ends, and its moves; `late` says whether the wait before it timed out. */
  ghost predicate LastRound(
      cv: CV.ConditionVariable, t: Tid, r: Result, ask: Option<Limit>, round: Round, late: bool, last: seq<Move>)
    reads cv
  {
    match r
    case Returned(value) => value == round.holds && (value || late) && last == [Theirs(round.others)] && Owns(cv, t)
    case Interrupted(w) => Hangs(cv, t, w) && BrokenOff(t, ask, round, w, last) && (late ==> last == [Theirs(round.others)])
    case Open => false
  }

  /** Every earlier round found the predicate false and, but for the last one, its wait did not time out. */
  ghost predicate KeptOn(deadline: int, rounds: seq<Round>, timeouts: seq<bool>) {
    && |timeouts| <= |rounds|
    && forall i :: 0 <= i < |timeouts| ==> Missed(deadline, rounds[i], timeouts[i]) && (i + 1 < |timeouts| ==> !timeouts[i])
  }

  /** A round that did not end the loop: its wait times out if the deadline has passed, and else only if the kernel says so. */
  predicate Missed(deadline: int, round: Round, timeout: bool) {
    && !round.holds
    && (round.now > deadline ==> timeout)
    && (timeout ==> round.now > deadline || round.expire)
  }

  lemma KeepsOn(deadline: int, rounds: seq<Round>, timeouts: seq<bool>, timeout: bool)
    requires KeptOn(deadline, rounds, timeouts) && !Late(timeouts) && |timeouts| < |rounds|
    requires Missed(deadline, rounds[|timeouts|], timeout)
    ensures KeptOn(deadline, rounds, timeouts + [timeout]) && Late(timeouts + [timeout]) == timeout
  {}

  predicate Late(timeouts: seq<bool>) {
    timeouts != [] && timeouts[|timeouts| - 1]
  }

  /** One round of a timed loop: the predicate, which is the result after a timeout, and the wait. */
  method TimedRound(
      cv: CV.ConditionVariable, t: Tid, deadline: int, den: nat, round: Round, late: bool, ghost from: State, ghost moves: seq<Move>)
    returns (r: Option<Result>, timeout: bool, ghost last: seq<Move>)
    requires Owns(cv, t) && den > 0 && Went(t, from, moves, cv.View())
    modifies cv
    ensures Went(t, from, moves + last, cv.View()) && StopsFor(t, cv.View())
    ensures r.None? ==> last == RoundMoves(t, Asked(deadline, den, round), round, timeout)
    ensures r.None? ==> Missed(deadline, round, timeout) && !late && Owns(cv, t)
    ensures r.Some? ==> LastRound(cv, t, r.value, Asked(deadline, den, round), round, late, last)
  {
    Interfere(cv, t, round.others, from, moves);
    timeout, last := false, [Theirs(round.others)];
    if !cv.halt.Running? { return Some(Interrupted(CV.Stopped)), timeout, last; }
    if late || round.holds { return Some(Returned(round.holds)), timeout, last; }
    ghost var s := cv.View();
    var w;
    ghost var waited;
    w, waited := WaitUntil(cv, t, deadline, den, round);
    RoundWent(t, from, moves, s, Asked(deadline, den, round), round, w, waited, cv.View());
    last, timeout := last + waited, w == CV.Finished(true);
    r := if w.Finished? then None else Some(Interrupted(w));
  }

  /**
   `wait_until(lock, abs_time, pred)`: it returns in the first round in which the predicate holds, and in
   the round after the first wait that timed out, with the answer of the predicate and with the mutex held.
   */
  method WaitUntilPred(cv: CV.ConditionVariable, t: Tid, deadline: int, den: nat, rounds: seq<Round>)
    returns (r: Result, ghost timeouts: seq<bool>, ghost last: seq<Move>)
    requires Owns(cv, t) && den > 0
    modifies cv
    ensures KeptOn(deadline, rounds, timeouts) && StopsFor(t, cv.View())
    ensures Went(t, old(cv.View()), LoopMoves(t, Until(deadline, den), rounds, timeouts) + last, cv.View())
    ensures r.Open? ==> |timeouts| == |rounds| && last == [] && Owns(cv, t)
    ensures !r.Open? ==> |timeouts| < |rounds|
    ensures !r.Open? ==> var round := rounds[|timeouts|];
      LastRound(cv, t, r, Asked(deadline, den, round), round, Late(timeouts), last)
  {
    var n, late := 0, false;
    timeouts, last := [], [];
    ghost var from := cv.View();
    ghost var moves := [];
    var end: Option<Result> := None;
    while n < |rounds| && end.None?
      invariant n == |timeouts| <= |rounds| && late == Late(timeouts) && KeptOn(deadline, rounds, timeouts)
      invariant moves == LoopMoves(t, Until(deadline, den), rounds, timeouts)
      invariant Went(t, from, moves + last, cv.View()) && StopsFor(t, cv.View())
      invariant end.None? ==> last == [] && Owns(cv, t)
      invariant end.Some? ==> n < |rounds|
      invariant end.Some? ==> LastRound(cv, t, end.value, Asked(deadline, den, rounds[n]), rounds[n], late, last)
      decreases |rounds| - n, end.None?
    {
      assert moves + [] == moves;
      var timeout;
      end, timeout, last := TimedRound(cv, t, deadline, den, rounds[n], late, from, moves);
      if end.None? {
        KeepsOn(deadline, rounds, timeouts, timeout);
        LoopGoesOn(t, Until(deadline, den), rounds, timeouts, timeout);
        n, late, timeouts, moves, last := n + 1, timeout, timeouts + [timeout], moves + last, [];
        assert moves + [] == moves;
      }
    }
    r := if end.Some? then end.value else Open;
  }

  /** `wait_for(lock, rel_time, pred)`: the same with the deadline counted from the clock at the call. */
  method WaitForPred(cv: CV.ConditionVariable, t: Tid, now: int, rel: int, den: nat, rounds: seq<Round>)
    returns (r: Result, ghost timeouts: seq<bool>, ghost last: seq<Move>)
    requires Owns(cv, t) && den > 0
    modifies cv
    ensures KeptOn(now + rel, rounds, timeouts) && StopsFor(t, cv.View())
    ensures Went(t, old(cv.View()), LoopMoves(t, Until(now + rel, den), rounds, timeouts) + last, cv.View())
    ensures r.Open? ==> |timeouts| == |rounds| && last == [] && Owns(cv, t)
    ensures !r.Open? ==> |timeouts| < |rounds|
    ensures !r.Open? ==> var round := rounds[|timeouts|];
      LastRound(cv, t, r, Asked(now + rel, den, round), round, Late(timeouts), last)
  {
    r, timeouts, last := WaitUntilPred(cv, t, now + rel, den, rounds);
  }
}
