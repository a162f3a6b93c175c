/** Whole runs of the condition variable: arbitrary interleavings from an idle start. */
module CvRuns {
  import opened Options
  import opened CvProtocol
  import opened CvInvariant

  datatype History = History(states: seq<State>, acts: seq<Action>)

  /** The `i`-th action is enabled and leads to the next state. */
  ghost predicate StepAt(r: History, i: nat)
    requires i < |r.acts| && i + 1 < |r.states|
  {
    WellFormed(r.states[i]) && Enabled(r.states[i], r.acts[i]) && r.states[i + 1] == Next(r.states[i], r.acts[i])
  }

  ghost predicate IsRun(r: History) {
    && |r.states| == |r.acts| + 1
    && Init(r.states[0])
    && forall i: nat :: i < |r.acts| ==> StepAt(r, i)
  }

  lemma {:induction false} RunInv(r: History, n: nat)
    requires IsRun(r) && n < |r.states|
    ensures n < |r.acts| ==> r.states[n].halt.Running?
    ensures r.states[n].halt.Running? ==> Inv(r.states[n])
  {
    if n == 0 {
      InitInv(r.states[0]);
    } else {
      RunInv(r, n - 1);
      assert StepAt(r, n - 1);
      if r.states[n].halt.Running? {
        InvKept(r.states[n - 1], r.acts[n - 1]);
      }
    }
    if n < |r.acts| {
      assert StepAt(r, n);
    }
  }

  // ---- One step, seen from one wait call -----------------------------------------------

  /** The only ways the stage of a wait call can change, and the step that does it. */
  lemma StageStep(s: State, a: Action, k: nat)
    requires Inv(s) && Enabled(s, a) && k < |s.sems| && Next(s, a).halt.Running?
    ensures k < |Next(s, a).sems| && Next(s, a).sems[k].limit == s.sems[k].limit
    ensures var old_, new_ := s.sems[k].stage, Next(s, a).sems[k].stage;
      || new_ == old_
      || (a == Run(a.t) && s.pcs[a.t] == Insert(k) && old_.Fresh? && new_.Listed?)
      || (a == Run(a.t) && s.pcs[a.t] == DropU(k) && old_.Listed? && new_.Blocked?)
      || (a == Run(a.t) && s.pcs[a.t] == Acquire(k) && old_.Blocked? && new_.Woken?
          && !Negative(s.sems[k].limit) && s.sems[k].count == 1)
      || (a == Run(a.t) && s.pcs[a.t] == Acquire(k) && old_.Blocked? && new_.Threw? && Negative(s.sems[k].limit))
      || (a == Expire(a.t) && s.pcs[a.t] == Acquire(k) && old_.Blocked? && new_.TimedOut?)
      || (a == Run(a.t) && s.pcs[a.t] == Erase(k) && old_.TimedOut? && new_.Erased? && k in s.list)
  {
    StepLocal(s, a);
    assert OwnAt(s, a.t) && NodeAt(s, k);
    if Ticket(s.pcs[a.t]) == Some(k) {
      if a.Run? { WaitStage(s, a.t); }
    }
  }

  lemma WaitStage(s: State, t: Tid)
    requires Inv(s) && t in s.pcs && CanRun(s, t) && Ticket(s.pcs[t]).Some?
    ensures var k := Ticket(s.pcs[t]).value; var stage := NextWait(s, t).sems[k].stage;
      && (s.pcs[t].Insert? ==> stage.Listed?)
      && (s.pcs[t].DropU? ==> stage.Blocked?)
      && (s.pcs[t].Acquire? ==> stage == (if Negative(s.sems[k].limit) then Threw else Woken))
      && (s.pcs[t].Erase? && k in s.list ==> stage.Erased?)
      && (stage != s.sems[k].stage ==> s.pcs[t].Insert? || s.pcs[t].DropU? || s.pcs[t].Acquire? || s.pcs[t].Erase?)
  {
    assert OwnAt(s, t);
  }

  // ---- Why a run stops -----------------------------------------------------------------

  lemma WaitHalts(s: State, t: Tid)
    requires Inv(s) && s.halt.Running? && t in s.pcs && CanRun(s, t) && Ticket(s.pcs[t]).Some?
    ensures s.pcs[t].Erase? && s.pcs[t].k in s.issued ==> NextWait(s, t).halt == StaleErase(s.pcs[t].k)
    ensures !(s.pcs[t].Erase? && s.pcs[t].k in s.issued) ==> NextWait(s, t).halt.Running?
  {
    assert LocksAt(s, t) && OwnAt(s, t);
    if s.pcs[t].Erase? {
      assert NodeAt(s, s.pcs[t].k) && Pending(s) == s.list;
    }
  }

  lemma NotifyHalts(s: State, t: Tid)
    requires Inv(s) && s.halt.Running? && t in s.pcs && CanRun(s, t) && Ticket(s.pcs[t]).None?
    ensures Signals(s, t) ==> Pending(s) != [] && Pending(s)[0] < |s.sems|
    ensures NextNotify(s, t).halt ==
      if Signals(s, t) && s.sems[Pending(s)[0]].stage.Threw? then DeadRelease(Pending(s)[0]) else Running
  {
    assert LocksAt(s, t);
    if Signals(s, t) {
      var k := s.list[Signalled(s)];
      assert k == Pending(s)[0] && k in Pending(s);
      assert SemAt(s, k) && NodeAt(s, k);
    }
  }

  /** Why a step stops the run.  There is no case for `Overflow`: it never happens. */
  ghost function HaltCause(s: State, a: Action): Halt
    requires Inv(s) && a.t in s.pcs
  {
    if a.CallWait? && s.u != Some(a.t) then Terminated(a.t)
    else if a.Run? && s.pcs[a.t].Erase? && s.pcs[a.t].k in s.issued then StaleErase(s.pcs[a.t].k)
    else if a.Run? && Signals(s, a.t) && Pending(s) != [] && Pending(s)[0] < |s.sems| && s.sems[Pending(s)[0]].stage.Threw?
    then DeadRelease(Pending(s)[0])
    else Running
  }

  /** A step stops the run exactly for the cause named by `HaltCause`. */
  lemma HaltExactly(s: State, a: Action)
    requires Inv(s) && Enabled(s, a)
    ensures Next(s, a).halt == HaltCause(s, a)
  {
    if a.Run? {
      if Ticket(s.pcs[a.t]).Some? { WaitHalts(s, a.t); } else { NotifyHalts(s, a.t); }
    }
  }
}
