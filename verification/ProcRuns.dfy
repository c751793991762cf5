/** Whole runs: no exit is lost, and every zombie is reaped at most once. */
module ProcRuns {
  import opened Collections
  import opened ProcMachine
  import opened ProcSafety

  /** Each step is enabled where it is taken. */
  predicate Legal(s: State, steps: seq<Step>)
    decreases |steps|
  {
    steps == [] || (Wf(s) && Enabled(s, steps[0]) && Legal(Next(s, steps[0]), steps[1..]))
  }

  function After(s: State, steps: seq<Step>): State
    requires Legal(s, steps)
    decreases |steps|
  {
    if steps == [] then s else After(Next(s, steps[0]), steps[1..])
  }

  /** The pids that wait returns for reaped children, in order. */
  function Reaps(s: State, steps: seq<Step>): seq<nat>
    requires Legal(s, steps)
    decreases |steps|
  {
    if steps == [] then []
    else
      (if steps[0].Reap? then [s.procs[s.procs[steps[0].p].place.i].pid] else [])
      + Reaps(Next(s, steps[0]), steps[1..])
  }

  predicate AsleepInWait(x: Proc) {
    x.status == Sleeping && x.place.Asleep?
  }

  /** A process asleep in wait has no zombie child: its exit woke it. */
  ghost predicate NoLostExit(s: State)
    requires Wf(s)
  {
    forall p, q :: 0 <= p < NPROC && 0 <= q < NPROC && AsleepInWait(s.procs[p]) && s.procs[q].parent == p ==>
      s.procs[q].status != Zombie
  }

  ghost predicate LiveParents(s: State)
    requires Wf(s)
  {
    forall q :: 0 <= q < NPROC && s.procs[q].parent != NONE ==>
      && s.procs[q].parent < NPROC
      && s.procs[s.procs[q].parent].status != Unused && s.procs[s.procs[q].parent].status != Zombie
  }

  ghost predicate DistinctPids(s: State)
    requires Wf(s)
  {
    forall p, q :: 0 <= p < q < NPROC && s.procs[p].status != Unused && s.procs[q].status != Unused ==>
      s.procs[p].pid != s.procs[q].pid
  }

  lemma InvMeans(s: State)
    requires Inv(s)
    ensures s.waitLock == NONE ==> NoLostExit(s)
    ensures LiveParents(s) && DistinctPids(s)
  {
    forall p, q | 0 <= p < NPROC && 0 <= q < NPROC && AsleepInWait(s.procs[p]) && s.procs[q].parent == p
                  && s.waitLock == NONE
      ensures s.procs[q].status != Zombie
    {
      assert Between(s, p, q);
    }
    forall q | 0 <= q < NPROC && s.procs[q].parent != NONE
      ensures s.procs[q].parent < NPROC && Alive(s.procs[s.procs[q].parent])
    {
      assert Slot(s, q);
    }
    forall p, q | 0 <= p < q < NPROC && s.procs[p].status != Unused && s.procs[q].status != Unused
      ensures s.procs[p].pid != s.procs[q].pid
    {
      assert Between(s, p, q);
    }
  }

  lemma {:induction false} RunKeepsInv(s: State, steps: seq<Step>)
    requires Inv(s) && Legal(s, steps)
    ensures Inv(After(s, steps))
    decreases |steps|
  {
    if steps != [] {
      StepKeepsInv(s, steps[0]);
      RunKeepsInv(Next(s, steps[0]), steps[1..]);
    }
  }

  /** After any run from boot: with wait_lock free, no parent sleeps on while a child of its
      is a zombie; parents are always alive, and live pids distinct. */
  lemma EveryRun(steps: seq<Step>)
    requires Legal(Initial(), steps)
    ensures var s := After(Initial(), steps);
            && Wf(s) && (s.waitLock == NONE ==> NoLostExit(s)) && LiveParents(s) && DistinctPids(s)
  {
    InitialInv();
    RunKeepsInv(Initial(), steps);
    InvMeans(After(Initial(), steps));
  }

  lemma {:induction false} ReapsFresh(s: State, steps: seq<Step>)
    requires Inv(s) && Legal(s, steps)
    ensures NoRepeats(Reaps(s, steps)) && forall i :: 0 <= i < |Reaps(s, steps)| ==> Reaps(s, steps)[i] !in s.reaped
    decreases |steps|
  {
    if steps != [] {
      StepKeepsInv(s, steps[0]);
      ReapsFresh(Next(s, steps[0]), steps[1..]);
      if steps[0].Reap? {
        assert Slot(s, s.procs[steps[0].p].place.i);
      }
    }
  }

  /** No pid is reaped twice in any run. */
  lemma ReapedOnce(steps: seq<Step>)
    requires Legal(Initial(), steps)
    ensures NoRepeats(Reaps(Initial(), steps))
  {
    InitialInv();
    ReapsFresh(Initial(), steps);
  }

  /** When wait gives up at the end of its scan, the process has no children or was killed;
      when it goes to sleep, none of its children is a zombie. */
  lemma WaitDecides(s: State, p: nat)
    requires Inv(s) && p < NPROC
    ensures CanReturn(s, p) && s.procs[p].place.i >= NPROC && !s.procs[p].killed ==>
              forall q :: 0 <= q < NPROC ==> s.procs[q].parent != p
    ensures s.procs[p].place.Decided? || s.procs[p].place.Doze? ==>
              forall q :: 0 <= q < NPROC && s.procs[q].parent == p ==> s.procs[q].status != Zombie
  {
    forall q | 0 <= q < NPROC && s.procs[q].parent == p
      ensures s.procs[p].place.Scan? && s.procs[p].place.i >= NPROC ==> s.procs[p].place.kids
      ensures s.procs[p].place.Decided? || s.procs[p].place.Doze? ==> s.procs[q].status != Zombie
    {
      assert Between(s, p, q);
    }
  }
}
