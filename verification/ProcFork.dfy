/** What becomes of the child a fork allocates, whatever the other processes do meanwhile. */
module ProcFork {
  import opened ProcMachine
  import opened ProcSafety
  import opened ProcRuns

  /** Process p is inside fork with child np, whose pid is n. */
  predicate Bearing(s: State, p: nat, np: nat, n: nat)
    requires Wf(s)
  {
    p < NPROC && np < NPROC && Forking(s.procs[p].place) && s.procs[p].place.np == np && s.procs[np].pid == n
  }

  /** The steps that end p's fork: the copy of memory failed, or the child is ready. */
  predicate Ends(step: Step, p: nat) {
    step == ForkFail(p) || step == MakeRunnable(p)
  }

  /** A fork's child lies untouched while others go on. */
  lemma SparesSlot(s: State, step: Step, s': State, q: nat)
    requires Wf(s) && Enabled(s, step) && !InFork(step) && s' == Next(s, step)
    requires q < NPROC && Slot(s, q) && Slot(s, step.p)
    ensures Wf(s') && Spared(s.procs[q], s'.procs[q])
  {
    if InExit(step) {
      ExitSpares(s, step, s', q);
    } else if InWait(step) {
      WaitSpares(s, step, s', q);
    }
  }

  lemma ExitSpares(s: State, step: Step, s': State, q: nat)
    requires Wf(s) && Enabled(s, step) && InExit(step) && s' == Next(s, step)
    requires q < NPROC && Slot(s, q) && Slot(s, step.p)
    ensures Wf(s') && Spared(s.procs[q], s'.procs[q])
  {
  }

  lemma WaitSpares(s: State, step: Step, s': State, q: nat)
    requires Wf(s) && Enabled(s, step) && InWait(step) && s' == Next(s, step)
    requires q < NPROC && Slot(s, q) && Slot(s, step.p)
    ensures Wf(s') && Spared(s.procs[q], s'.procs[q])
  {
  }

  predicate Spared(x: Proc, x': Proc) {
    && (Forking(x.place) ==> x'.place == x.place) && (x.status == Used <==> x'.status == Used)
    && (x.status == Used ==> x'.pid == x.pid && x'.maker == x.maker)
  }

  lemma ForkStepsSpare(s: State, step: Step, s': State, p: nat, np: nat, n: nat)
    requires Wf(s) && Enabled(s, step) && InFork(step) && !Ends(step, p) && Bearing(s, p, np, n)
    requires Slot(s, p) && Slot(s, np) && Slot(s, step.p) && s' == Next(s, step)
    ensures Wf(s') && Bearing(s', p, np, n)
  {
    match step
    case Alloc(a, q) =>
    case ForkFail(a) =>
    case ForkUnlock(a) =>
    case ForkLock(a) =>
    case SetParent(a) =>
    case MakeRunnable(a) =>
  }

  lemma BearingNext(s: State, step: Step, p: nat, np: nat, n: nat)
    requires Inv(s) && Enabled(s, step) && !Ends(step, p) && Bearing(s, p, np, n)
    ensures Bearing(Next(s, step), p, np, n)
  {
    assert Slot(s, p) && Slot(s, np) && Slot(s, step.p);
    if InFork(step) {
      ForkStepsSpare(s, step, Next(s, step), p, np, n);
    } else {
      SparesSlot(s, step, Next(s, step), p);
      SparesSlot(s, step, Next(s, step), np);
    }
  }

  lemma {:induction false} ForkMeanwhile(s: State, steps: seq<Step>, p: nat, np: nat, n: nat)
    requires Inv(s) && Legal(s, steps) && Bearing(s, p, np, n)
    requires forall k :: 0 <= k < |steps| ==> !Ends(steps[k], p)
    ensures Inv(After(s, steps)) && Bearing(After(s, steps), p, np, n)
    decreases |steps|
  {
    if steps != [] {
      StepKeepsInv(s, steps[0]);
      BearingNext(s, steps[0], p, np, n);
      ForkMeanwhile(Next(s, steps[0]), steps[1..], p, np, n);
    }
  }

  /** Process p has left fork, and its child np waits for the scheduler with pid n; or the slot
      is free again. */
  predicate Over(s: State, p: nat, np: nat, n: nat, failed: bool)
    requires Wf(s) && p < NPROC && np < NPROC
  {
    && s.procs[p].place == User
    && if failed then s.procs[np] == FREED
       else s.procs[np].status == Runnable && s.procs[np].pid == n && s.procs[np].parent == p && CanSchedule(s, np)
  }

  lemma EndsOver(s: State, last: Step, s': State, p: nat, np: nat, n: nat)
    requires Inv(s) && Enabled(s, last) && Ends(last, p) && Bearing(s, p, np, n) && s' == Next(s, last)
    ensures Wf(s') && Over(s', p, np, n, last.ForkFail?)
  {
    assert Slot(s, p) && Slot(s, np);
  }

  /** The child a fork allocated becomes runnable when the fork ends, with the pid it was given
      and the forking process as its parent, and the scheduler can run it. Only a failed copy of
      memory ends the fork otherwise, and frees the slot again. */
  lemma ChildBecomesRunnable(s: State, steps: seq<Step>, p: nat, np: nat, last: Step, s': State)
    requires Inv(s) && CanAlloc(s, p, np) && Legal(DoAlloc(s, p, np), steps)
    requires forall k :: 0 <= k < |steps| ==> !Ends(steps[k], p)
    requires var s1 := After(DoAlloc(s, p, np), steps);
             Wf(s1) && Enabled(s1, last) && Ends(last, p) && s' == Next(s1, last)
    ensures Wf(s') && Over(s', p, np, s.nextpid, last.ForkFail?)
  {
    StepKeepsInv(s, Alloc(p, np));
    ForkMeanwhile(DoAlloc(s, p, np), steps, p, np, s.nextpid);
    EndsOver(After(DoAlloc(s, p, np), steps), last, s', p, np, s.nextpid);
  }

  /** Nothing holds up fork's last step: no one else can be holding the child's lock. */
  lemma LastStepEnabled(s: State, p: nat)
    requires Inv(s) && Runs(s, p) && s.procs[p].place.ForkDone?
    ensures CanMakeRunnable(s, p)
  {
    var np := s.procs[p].place.np;
    assert Slot(s, p) && Slot(s, np);
    assert s.procs[np].lock < NPROC ==> Slot(s, s.procs[np].lock);
  }

  /** A slot in use but not yet runnable belongs to a fork under way. */
  predicate Borne(s: State, q: nat)
    requires Wf(s) && q < NPROC
  {
    s.procs[q].status == Used ==>
      var p := s.procs[q].maker; p < NPROC && Forking(s.procs[p].place) && s.procs[p].place.np == q
  }

  lemma StepBorne(s: State, step: Step, q: nat)
    requires Inv(s) && Enabled(s, step) && q < NPROC && Borne(s, q)
    ensures Borne(Next(s, step), q)
  {
    assert Slot(s, q) && Slot(s, step.p);
    var m := s.procs[q].maker;
    if InFork(step) {
      assert Slot(s, Other(s, step));
      ForkStepBorne(s, step, Next(s, step), q);
    } else {
      SparesSlot(s, step, Next(s, step), q);
      if s.procs[q].status == Used {
        assert Slot(s, m);
        SparesSlot(s, step, Next(s, step), m);
      }
    }
  }

  lemma ForkStepBorne(s: State, step: Step, s': State, q: nat)
    requires Wf(s) && Enabled(s, step) && InFork(step) && q < NPROC && Borne(s, q) && Slot(s, q) && Slot(s, step.p)
    requires Slot(s, Other(s, step)) && s' == Next(s, step)
    ensures Wf(s') && Borne(s', q)
  {
    match step
    case Alloc(a, b) =>
    case ForkFail(a) =>
    case ForkUnlock(a) =>
    case ForkLock(a) =>
    case SetParent(a) =>
    case MakeRunnable(a) =>
  }

  lemma {:induction false} RunBorne(s: State, steps: seq<Step>, q: nat)
    requires Inv(s) && Legal(s, steps) && q < NPROC && Borne(s, q)
    ensures Inv(After(s, steps)) && Borne(After(s, steps), q)
    decreases |steps|
  {
    if steps != [] {
      StepKeepsInv(s, steps[0]);
      StepBorne(s, steps[0], q);
      RunBorne(Next(s, steps[0]), steps[1..], q);
    }
  }

  /** In every run from boot: no fork leaves a child behind that is neither free nor runnable. */
  lemma NoneLeftBehind(steps: seq<Step>, q: nat)
    requires Legal(Initial(), steps) && q < NPROC
    ensures var s := After(Initial(), steps); Wf(s) && Borne(s, q)
  {
    InitialInv();
    RunBorne(Initial(), steps, q);
  }
}
