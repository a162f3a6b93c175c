/** Calls of one thread as parts of runs: its own steps in a call, and the other threads' steps between them. */
module CvCalls {
  import opened Options
  import opened CvProtocol
  import opened CvInvariant
  import opened CvRuns

  /** The moves lead from `s` to `s'`, by any step function. */
  ghost predicate Path<S, A>(step: (S, A) -> Option<S>, s: S, acts: seq<A>, s': S)
    decreases |acts|
  {
    if acts == [] then s' == s
    else step(s, acts[0]).Some? && Path(step, step(s, acts[0]).value, acts[1..], s')
  }

  lemma {:induction false} PathConcat<S, A>(step: (S, A) -> Option<S>, a: S, p: seq<A>, b: S, q: seq<A>, c: S)
    requires Path(step, a, p, b) && Path(step, b, q, c)
    ensures Path(step, a, p + q, c)
    decreases |p|
  {
    if p == [] {
      assert p + q == q;
    } else {
      PathConcat(step, step(a, p[0]).value, p[1..], b, q, c);
      assert (p + q)[1..] == p[1..] + q;
    }
  }

  lemma PathOne<S, A>(step: (S, A) -> Option<S>, a: S, p: seq<A>, b: S, m: A, c: S)
    requires Path(step, a, p, b) && step(b, m) == Some(c)
    ensures Path(step, a, p + [m], c)
  {
    assert Path(step, c, [m][1..], c);
    assert Path(step, b, [m], c);
    PathConcat(step, a, p, b, [m], c);
  }

  /** The steps of the protocol. */
  function Step(): (State, Action) -> Option<State> {
    (s: State, a: Action) => if WellFormed(s) && Enabled(s, a) then Some(Next(s, a)) else None
  }

  // ---- The other threads ---------------------------------------------------------------

  /** The other threads make the listed steps, as far as they are enabled. */
  function Others(s: State, t: Tid, acts: seq<Action>): State
    decreases |acts|
  {
    if acts == [] then s
    else if acts[0].t != t && WellFormed(s) && Enabled(s, acts[0]) then Others(Next(s, acts[0]), t, acts[1..])
    else Others(s, t, acts[1..])
  }

  /** Every run of other threads' steps is the effect of some list of steps: the list of those very steps. */
  lemma {:induction false} OthersMakeEveryStep(s: State, t: Tid, acts: seq<Action>, s': State)
    requires Path(Step(), s, acts, s') && forall a :: a in acts ==> a.t != t
    ensures Others(s, t, acts) == s'
    decreases |acts|
  {
    if acts != [] {
      assert acts[0] in acts;
      OthersMakeEveryStep(Next(s, acts[0]), t, acts[1..], s');
    }
  }

  /** The last step of a list is made exactly if it is another thread's and enabled by then. */
  lemma {:induction false} OthersStepwise(s: State, t: Tid, acts: seq<Action>, a: Action)
    ensures var before := Others(s, t, acts);
      Others(s, t, acts + [a]) == if a.t != t && WellFormed(before) && Enabled(before, a) then Next(before, a) else before
    decreases |acts|
  {
    if acts == [] {
      assert acts + [a] == [a] && [a][1..] == [];
    } else {
      assert (acts + [a])[0] == acts[0] && (acts + [a])[1..] == acts[1..] + [a];
      if acts[0].t != t && WellFormed(s) && Enabled(s, acts[0]) {
        OthersStepwise(Next(s, acts[0]), t, acts[1..], a);
      } else {
        OthersStepwise(s, t, acts[1..], a);
      }
    }
  }

  /** The steps of a list that the other threads make. */
  ghost function Made(s: State, t: Tid, acts: seq<Action>): seq<Action>
    decreases |acts|
  {
    if acts == [] then []
    else if acts[0].t != t && WellFormed(s) && Enabled(s, acts[0]) then [acts[0]] + Made(Next(s, acts[0]), t, acts[1..])
    else Made(s, t, acts[1..])
  }

  lemma {:induction false} OthersArePath(s: State, t: Tid, acts: seq<Action>)
    ensures Path(Step(), s, Made(s, t, acts), Others(s, t, acts))
    ensures forall a :: a in Made(s, t, acts) ==> a in acts && a.t != t
    decreases |acts|
  {
    if acts != [] {
      if acts[0].t != t && WellFormed(s) && Enabled(s, acts[0]) {
        var next := Next(s, acts[0]);
        OthersArePath(next, t, acts[1..]);
        assert Made(s, t, acts)[1..] == Made(next, t, acts[1..]);
      } else {
        OthersArePath(s, t, acts[1..]);
      }
    }
  }

  // ---- A thread among the others -------------------------------------------------------

  /** What happens while one thread is watched: a turn of the others, or a step of its own. */
  datatype Move =
    | Theirs(acts: seq<Action>)
    | Mine(a: Action)

  function Play(t: Tid): (State, Move) -> Option<State> {
    (s: State, m: Move) =>
      match m
      case Theirs(acts) => Some(Others(s, t, acts))
      case Mine(a) => if a.t == t && WellFormed(s) && Enabled(s, a) then Some(Next(s, a)) else None
  }

  /** From `from`, thread `t` and the others make exactly the moves, and arrive in `s`. */
  ghost predicate Went(t: Tid, from: State, moves: seq<Move>, s: State) {
    Path(Play(t), from, moves, s)
  }

  lemma WentMine(t: Tid, from: State, moves: seq<Move>, s: State, a: Action)
    requires Went(t, from, moves, s) && a.t == t && WellFormed(s) && Enabled(s, a)
    ensures Went(t, from, moves + [Mine(a)], Next(s, a))
  {
    PathOne(Play(t), from, moves, s, Mine(a), Next(s, a));
  }

  lemma WentTheirs(t: Tid, from: State, moves: seq<Move>, s: State, acts: seq<Action>)
    requires Went(t, from, moves, s)
    ensures Went(t, from, moves + [Theirs(acts)], Others(s, t, acts))
  {
    PathOne(Play(t), from, moves, s, Theirs(acts), Others(s, t, acts));
  }

  lemma WentOn(t: Tid, from: State, moves: seq<Move>, s: State, more: seq<Move>, s': State)
    requires Went(t, from, moves, s) && Went(t, s, more, s')
    ensures Went(t, from, moves + more, s')
  {
    PathConcat(Play(t), from, moves, s, more, s');
  }

  /** A run as moves of thread `t` and of the others. */
  function MovesOf(t: Tid, acts: seq<Action>): seq<Move> {
    if acts == [] then [] else [if acts[0].t == t then Mine(acts[0]) else Theirs([acts[0]])] + MovesOf(t, acts[1..])
  }

  /** Whatever the interleaving of thread `t` with the others, it is one of its moves and of turns of the others. */
  lemma {:induction false} EveryRunIsPlayed(t: Tid, s: State, acts: seq<Action>, s': State)
    requires Path(Step(), s, acts, s')
    ensures Went(t, s, MovesOf(t, acts), s')
    decreases |acts|
  {
    if acts != [] {
      var next := Next(s, acts[0]);
      EveryRunIsPlayed(t, next, acts[1..], s');
      assert MovesOf(t, acts)[1..] == MovesOf(t, acts[1..]);
      if acts[0].t != t { OthersMakeOne(s, t, acts[0]); }
    }
  }

  lemma OthersMakeOne(s: State, t: Tid, a: Action)
    requires a.t != t && WellFormed(s) && Enabled(s, a)
    ensures Others(s, t, [a]) == Next(s, a)
  {
    assert [a][1..] == [];
  }

  // ---- The turns of a call -------------------------------------------------------------

  /**
   A call of thread `t` in state `from`, with `sched(i)` the steps of the others before its `i`-th own
   step, and `expired` telling whether its acquire times out.
   */
  datatype Plan = Plan(t: Tid, from: State, call: Action, sched: nat -> seq<Action>, expired: bool)

  /** The acquire is the fifth own step of a wait, after taking `m`, inserting, and releasing `m` and `u`. */
  const ACQUIRE: nat := 4

  function OwnStep(t: Tid, expired: bool, i: nat): Action {
    if expired && i == ACQUIRE then Expire(t) else Run(t)
  }

  /** The call and its first `n` turns: the others, then one own step. */
  function Script(t: Tid, call: Action, sched: nat -> seq<Action>, expired: bool, n: nat): seq<Move> {
    if n == 0 then [Mine(call)]
    else Script(t, call, sched, expired, n - 1) + [Theirs(sched(n - 1)), Mine(OwnStep(t, expired, n - 1))]
  }

  /** Before every own step the others have had exactly their turn. */
  lemma {:induction false} ScriptTurns(t: Tid, call: Action, sched: nat -> seq<Action>, expired: bool, n: nat, i: nat)
    requires i < n
    ensures var script := Script(t, call, sched, expired, n);
      && |script| == 2 * n + 1 && script[0] == Mine(call)
      && script[2 * i + 1] == Theirs(sched(i))
      && script[2 * i + 2] == Mine(if expired && i == 4 then Expire(t) else Run(t))
  {
    ScriptLength(t, call, sched, expired, n - 1);
    if i < n - 1 { ScriptTurns(t, call, sched, expired, n - 1, i); }
  }

  lemma {:induction false} ScriptLength(t: Tid, call: Action, sched: nat -> seq<Action>, expired: bool, n: nat)
    ensures |Script(t, call, sched, expired, n)| == 2 * n + 1 && Script(t, call, sched, expired, n)[0] == Mine(call)
  {
    if n > 0 { ScriptLength(t, call, sched, expired, n - 1); }
  }

  function Moves(p: Plan, n: nat): seq<Move> {
    Script(p.t, p.call, p.sched, p.expired, n)
  }

  /** State `s` is reached by the call and its first `n` turns. */
  ghost predicate After(p: Plan, n: nat, s: State) {
    Went(p.t, p.from, Moves(p, n), s)
  }

  /** State `s` is reached when the others have had their turn after that. */
  ghost predicate During(p: Plan, n: nat, s: State) {
    Went(p.t, p.from, Moves(p, n) + [Theirs(p.sched(n))], s)
  }

  lemma CallMade(p: Plan)
    requires p.call.t == p.t && WellFormed(p.from) && Enabled(p.from, p.call)
    ensures After(p, 0, Next(p.from, p.call))
  {
    assert Went(p.t, p.from, [], p.from);
    WentMine(p.t, p.from, [], p.from, p.call);
    assert [] + [Mine(p.call)] == [Mine(p.call)];
  }

  lemma OthersHadTurn(p: Plan, n: nat, s: State)
    requires After(p, n, s)
    ensures During(p, n, Others(s, p.t, p.sched(n)))
  {
    WentTheirs(p.t, p.from, Moves(p, n), s, p.sched(n));
  }

  lemma OwnStepMade(p: Plan, n: nat, s: State)
    requires During(p, n, s) && WellFormed(s) && Enabled(s, OwnStep(p.t, p.expired, n))
    ensures After(p, n + 1, Next(s, OwnStep(p.t, p.expired, n)))
  {
    var moves := Moves(p, n) + [Theirs(p.sched(n))];
    WentMine(p.t, p.from, moves, s, OwnStep(p.t, p.expired, n));
    assert moves + [Mine(OwnStep(p.t, p.expired, n))] == Moves(p, n + 1);
  }

  lemma {:induction false} SameUntilAcquire(t: Tid, call: Action, sched: nat -> seq<Action>, n: nat)
    requires n <= ACQUIRE
    ensures Script(t, call, sched, false, n) == Script(t, call, sched, true, n)
  {
    if n > 0 { SameUntilAcquire(t, call, sched, n - 1); }
  }

  // ---- Calls and runs ------------------------------------------------------------------

  /** A run goes on by one action. */
  lemma RunGoesOn(r: History, a: Action)
    requires IsRun(r) && WellFormed(r.states[|r.acts|]) && Enabled(r.states[|r.acts|], a)
    ensures IsRun(History(r.states + [Next(r.states[|r.acts|], a)], r.acts + [a]))
  {
    var r' := History(r.states + [Next(r.states[|r.acts|], a)], r.acts + [a]);
    forall i: nat | i < |r'.acts| ensures StepAt(r', i) {
      assert i < |r.acts| ==> StepAt(r, i);
    }
  }

  lemma {:induction false} PathExtendsRun(r: History, acts: seq<Action>, s': State) returns (r': History)
    requires IsRun(r) && Path(Step(), r.states[|r.acts|], acts, s')
    ensures IsRun(r') && r'.acts == r.acts + acts && r'.states[|r'.acts|] == s'
    decreases |acts|
  {
    r' := r;
    if acts != [] {
      var s := r.states[|r.acts|];
      RunGoesOn(r, acts[0]);
      r' := PathExtendsRun(History(r.states + [Next(s, acts[0])], r.acts + [acts[0]]), acts[1..], s');
    }
  }

  /** The actions of the moves: the steps the others make, and the thread's own. */
  ghost function ActionsOf(t: Tid, s: State, moves: seq<Move>): seq<Action>
    decreases |moves|
  {
    if moves == [] then []
    else
      match moves[0]
      case Theirs(acts) => Made(s, t, acts) + ActionsOf(t, Others(s, t, acts), moves[1..])
      case Mine(a) =>
        if WellFormed(s) && Enabled(s, a) then [a] + ActionsOf(t, Next(s, a), moves[1..]) else []
  }

  lemma {:induction false} MovesArePath(t: Tid, s: State, moves: seq<Move>, s': State)
    requires Went(t, s, moves, s')
    ensures Path(Step(), s, ActionsOf(t, s, moves), s')
    decreases |moves|
  {
    if moves != [] {
      match moves[0]
      case Theirs(acts) =>
        var next := Others(s, t, acts);
        OthersArePath(s, t, acts);
        MovesArePath(t, next, moves[1..], s');
        PathConcat(Step(), s, Made(s, t, acts), next, ActionsOf(t, next, moves[1..]), s');
      case Mine(a) =>
        var next := Next(s, a);
        MovesArePath(t, next, moves[1..], s');
        assert ActionsOf(t, s, moves)[1..] == ActionsOf(t, next, moves[1..]);
    }
  }

  /** Moves made at the end of a run give a longer run, which every theorem about runs speaks of. */
  lemma CallExtendsRun(r: History, t: Tid, moves: seq<Move>, s': State) returns (r': History)
    requires IsRun(r) && Went(t, r.states[|r.acts|], moves, s')
    ensures IsRun(r') && r'.acts == r.acts + ActionsOf(t, r.states[|r.acts|], moves) && r'.states[|r'.acts|] == s'
  {
    MovesArePath(t, r.states[|r.acts|], moves, s');
    r' := PathExtendsRun(r, ActionsOf(t, r.states[|r.acts|], moves), s');
  }

  // ---- Why a call may find the run stopped ---------------------------------------------

  /** Why a run may have stopped by the end of a call of `t`: never because `t` waits without the lock. */
  ghost predicate StopsFor(t: Tid, s: State) {
    match s.halt
    case Running => true
    case Terminated(x) => x != t
    case StaleErase(k) => k in s.issued && k !in s.list && k < |s.sems| && s.sems[k].stage.TimedOut?
    case DeadRelease(k) => k < |s.sems| && s.sems[k].stage.Threw?
    case Overflow(_) => false
  }

  lemma StepStopsFor(t: Tid, s: State, a: Action)
    requires Inv(s) && Enabled(s, a) && (a.t == t && a.CallWait? ==> s.u == Some(t))
    ensures StopsFor(t, Next(s, a))
    ensures Next(s, a).halt.Running? ==> Inv(Next(s, a))
  {
    HaltExactly(s, a);
    assert OwnAt(s, a.t) && LocksAt(s, a.t);
    if a.Run? && s.pcs[a.t].Erase? {
      assert NodeAt(s, s.pcs[a.t].k);
    }
    if Next(s, a).halt.Running? { InvKept(s, a); }
  }

  lemma {:induction false} OthersStopFor(t: Tid, s: State, acts: seq<Action>)
    requires Inv(s) && s.halt.Running?
    ensures var s' := Others(s, t, acts); StopsFor(t, s') && (s'.halt.Running? ==> Inv(s'))
    decreases |acts|
  {
    if acts != [] {
      if acts[0].t != t && Enabled(s, acts[0]) {
        var next := Next(s, acts[0]);
        StepStopsFor(t, s, acts[0]);
        if next.halt.Running? { OthersStopFor(t, next, acts[1..]); } else { StoppedStays(next, t, acts[1..]); }
      } else {
        OthersStopFor(t, s, acts[1..]);
      }
    }
  }

  lemma {:induction false} StoppedStays(s: State, t: Tid, acts: seq<Action>)
    requires !s.halt.Running?
    ensures Others(s, t, acts) == s
  {
    if acts != [] { StoppedStays(s, t, acts[1..]); }
  }

  /** The thread only goes on with the call it is in. */
  predicate OnlyRuns(moves: seq<Move>) {
    forall m :: m in moves && m.Mine? ==> m.a.Run? || m.a.Expire?
  }

  lemma {:induction false} CallStopsFor(t: Tid, s: State, moves: seq<Move>, s': State)
    requires Inv(s) && s.halt.Running? && OnlyRuns(moves) && Went(t, s, moves, s')
    ensures StopsFor(t, s') && (s'.halt.Running? ==> Inv(s'))
    decreases |moves|
  {
    if moves != [] {
      assert moves[0] in moves;
      var next := Play(t)(s, moves[0]).value;
      match moves[0] {
        case Theirs(acts) => OthersStopFor(t, s, acts);
        case Mine(a) => StepStopsFor(t, s, a);
      }
      if next.halt.Running? { CallStopsFor(t, next, moves[1..], s'); } else { StoppedForGood(t, next, moves[1..], s'); }
    }
  }

  lemma {:induction false} StoppedForGood(t: Tid, s: State, moves: seq<Move>, s': State)
    requires !s.halt.Running? && Went(t, s, moves, s')
    ensures s' == s
    decreases |moves|
  {
    if moves != [] {
      if moves[0].Theirs? { StoppedStays(s, t, moves[0].acts); }
      StoppedForGood(t, s, moves[1..], s');
    }
  }

  /** A call that may be made stops the run only for the causes named. */
  lemma CallStops(p: Plan, moves: seq<Move>, s: State)
    requires Inv(p.from) && p.call.t == p.t && Enabled(p.from, p.call)
    requires p.call.CallWait? ==> p.from.u == Some(p.t)
    requires moves != [] && moves[0] == Mine(p.call) && OnlyRuns(moves[1..]) && Went(p.t, p.from, moves, s)
    ensures StopsFor(p.t, s)
  {
    var next := Next(p.from, p.call);
    StepStopsFor(p.t, p.from, p.call);
    if next.halt.Running? { CallStopsFor(p.t, next, moves[1..], s); } else { StoppedForGood(p.t, next, moves[1..], s); }
  }

  lemma {:induction false} ScriptOnlyRuns(t: Tid, call: Action, sched: nat -> seq<Action>, expired: bool, n: nat)
    ensures var script := Script(t, call, sched, expired, n);
      script != [] && script[0] == Mine(call) && OnlyRuns(script[1..])
  {
    if n > 0 {
      var before := Script(t, call, sched, expired, n - 1);
      ScriptOnlyRuns(t, call, sched, expired, n - 1);
      assert Script(t, call, sched, expired, n)[1..] ==
             before[1..] + [Theirs(sched(n - 1)), Mine(OwnStep(t, expired, n - 1))];
    }
  }

  /** Wherever the call has got to by its script, the run goes on or has stopped for one of the causes named. */
  lemma ScriptStops(p: Plan, n: nat, s: State)
    requires Inv(p.from) && p.call.t == p.t && Enabled(p.from, p.call)
    requires p.call.CallWait? ==> p.from.u == Some(p.t)
    requires After(p, n, s) || During(p, n, s)
    ensures StopsFor(p.t, s)
  {
    ScriptOnlyRuns(p.t, p.call, p.sched, p.expired, n);
    if After(p, n, s) {
      CallStops(p, Moves(p, n), s);
    } else {
      assert (Moves(p, n) + [Theirs(p.sched(n))])[1..] == Moves(p, n)[1..] + [Theirs(p.sched(n))];
      CallStops(p, Moves(p, n) + [Theirs(p.sched(n))], s);
    }
  }
}
